# sendReaction command of signal-cli, modelled in Dafny

This project models the `sendReaction` command of the signal-cli command line
(`SendReactionCommand`). The command reacts with an emoji to an earlier message,
named by its author and timestamp. The model covers what `handleCommand` decides:

- which target the user named: recipients by phone number or one group, exactly one of them;
- the decoding of the group id;
- which of the two reaction operations of the `Signal` D-Bus interface is called, with which arguments;
- how each D-Bus failure of that call becomes a `UserErrorException` or an `UnexpectedErrorException`;
- what a returned timestamp writes: one plain-text line, or the JSON object `{"timestamp": T}`.

The command is one pure function, `SendReactionCommand.HandleCommand`. It returns a
`Result` that records the backend call made (if any) and how the command ended.
The group-id decoder (`Util.decodeGroupId(..).serialize()`) and the `Signal` backend are
parameters of arrow type. Each answers a call with its outcome: `Serialized(bytes)` or
`GroupIdFormatException(msg)` for the decoder; `Sent(T)` or a `DBusFailure` of kind
`UnknownObject`, `InvalidNumber`, `GroupNotFound` or `OtherExecutionError` for the backend.
The catch chain is modelled as written: an ordered list of catch clauses, each naming an
exception class, and Java's rule that the first clause whose class the failure is an
instance of handles it (`FirstCatch`). Every failure kind is an instance of
`DBusExecutionException`, so the order of the clauses matters.

Files:
- `options.dfy`: `Option`, standing for Java's nullable references.
- `long_text.dfy`: Java's `long` (`int64`) and its decimal text as `Long.toString` writes it, with a parser that reads it back.
- `send_reaction_command.dfy`: the command, the catch chain, the output and the lemmas.

## Model

| member | source | states |
|---|---|---|
| `SendReactionCommand.HandleCommand` | src/main/java/org/asamk/signal/commands/SendReactionCommand.java:50-95 | No recipients and no group id gives `UserErrorException("No recipients given")` with no backend call. Recipients together with a group id gives the "cannot specify recipients by phone number and groups at the same time" user error with no call. A group id the decoder rejects gives `UserErrorException("Invalid group id: " + msg)` with no call. In every other case exactly one call is made, with emoji, remove flag, target author and target timestamp unchanged: the group send with the decoded bytes when a group id was given, otherwise the recipient send with the (non-empty) recipient list as given. Output is written exactly when that call returns a timestamp, and it is `OutputResult` of that timestamp. A thrown failure ends in `CatchSendFailure` of that failure. |
| `SendReactionCommand.FirstCatch` | src/main/java/org/asamk/signal/commands/SendReactionCommand.java:86-94 | Java's catch selection: the failure propagates (None) iff no clause's class matches it. Otherwise it is rethrown by a matching clause with no matching clause before it. |
| `SendReactionCommand.SendCatchClausesTable` | src/main/java/org/asamk/signal/commands/SendReactionCommand.java:86-94 | The four catch clauses, in their written order, catch every D-Bus failure. The last, general `DBusExecutionException` clause matches every failure. Every failure is still handled by the clause written for its kind, so UnknownObject, InvalidNumber and GroupNotFound are caught by their own clauses, ahead of the general one. |
| `SendReactionCommand.CatchSendFailure` | src/main/java/org/asamk/signal/commands/SendReactionCommand.java:86-94 | UnknownObject gives a user error "Failed to find dbus object, maybe missing the -u flag: " + msg. InvalidNumber gives a user error "Invalid number: " + msg. GroupNotFound gives a user error "Failed to send to group: " + msg. Any other execution error gives an unexpected error "Failed to send message: " + msg. |
| `SendReactionCommand.OutputResult` | src/main/java/org/asamk/signal/commands/SendReactionCommand.java:104-111 | The plain-text writer gets one line whose text is a canonical decimal numeral (no leading zeros) that reads back as the timestamp; by `LongText.CanonicalTextIsLongToString` that line is exactly the timestamp's `Long.toString`. Any other writer is a JSON writer and gets a map with the single key `"timestamp"`, mapped to the timestamp. |
| `SendReactionCommand.PlainOutputIdentifiesTimestamp` | src/main/java/org/asamk/signal/commands/SendReactionCommand.java:107 | Two different timestamps never print the same plain-text line. |
| `SendReactionCommand.HandleCommandWithManager` | src/main/java/org/asamk/signal/commands/SendReactionCommand.java:97-102 | The Manager-backed entry point is the Signal-backed command run on the manager wrapped in a `DbusSignalImpl`. |
| `SendReactionCommand.ManagerEntryMatchesSignalEntry` | src/main/java/org/asamk/signal/commands/SendReactionCommand.java:97-102 | The Manager-backed entry gives the same result as the Signal-backed entry on any backend that answers the call made as the wrapped manager does. |
| `SendReactionCommand.SameAnswerSameResult` | src/main/java/org/asamk/signal/commands/SendReactionCommand.java:78-94 | The result depends on the backend only through its answer to the one call made. Two backends that answer that call alike give the same result. |
| `SendReactionCommand.RejectionIgnoresBackend` | src/main/java/org/asamk/signal/commands/SendReactionCommand.java:56-76 | When the command stops before any call, it stops with an exception. That result is the same for every backend and every output writer. The checks and the decoding come before the send. |
| `SendReactionCommand.TargetChecksPrecedeDecoding` | src/main/java/org/asamk/signal/commands/SendReactionCommand.java:56-62 | When a target check fails, the result is the same whatever the group-id decoder would answer. Both checks run before decoding. |
| `SendReactionCommand.PassedChecksMeanOneTarget` | src/main/java/org/asamk/signal/commands/SendReactionCommand.java:56-62 | When neither target error is raised, exactly one of the two targets was given: a group id, or a non-empty recipient list. |
| `SendReactionCommand.DirectReactionScenario` | src/main/java/org/asamk/signal/commands/SendReactionCommand.java:78-85 | A reaction to recipient "+15551234567" calls the recipient send with the arguments as given. A returned 1700000000500 is written as `{"timestamp": 1700000000500}` in JSON mode, and in plain mode as the line "1700000000500". |
| `LongText.LongToString` | src/main/java/org/asamk/signal/commands/SendReactionCommand.java:107 | The text of a timestamp is a canonical decimal numeral: digits with no leading zero ("0" aside) for a non-negative value, and a minus sign followed by such digits, not starting with 0, for a negative one. |
| `LongText.LongRoundTrip` | src/main/java/org/asamk/signal/commands/SendReactionCommand.java:107 | Reading back the decimal text of any `long` gives that `long`. |
| `LongText.CanonicalTextIsLongToString` | src/main/java/org/asamk/signal/commands/SendReactionCommand.java:107 | A canonical numeral that reads back as a `long` is that `long`'s text: the canonical form and the read-back value fix the printed line uniquely. |
| `SendReactionCommand.ScenarioTimestampText` | src/main/java/org/asamk/signal/commands/SendReactionCommand.java:107 | The text of the timestamp 1700000000500 is "1700000000500". |
| `LongText.LongToStringInjective` | src/main/java/org/asamk/signal/commands/SendReactionCommand.java:107 | Distinct `long` values have distinct decimal texts. |

## Left out

- `attachToSubparser` (argparse4j configuration) and `getName` (the constant "sendReaction"). The parser guarantees that emoji, target author and target timestamp are present, and the model takes them as given. The emoji's "single grapheme cluster" rule is help text and is not checked by the command, so the model does not check it either.
- `Util.decodeGroupId`, `GroupId.serialize`, `DbusSignalImpl`, the D-Bus transport and the `Signal` backend are not part of this model. They are arrow-typed parameters: the model records which operation is called with which arguments, and how the command treats each kind of answer.
- `PlainTextWriter` and `JsonWriter` internals and the actual I/O. The model returns what is handed to the writer. The plain-text line is the text `Long.toString` gives, which is what the writer's `{}` placeholder is taken to produce. The JSON object is a map.
- An output writer that is neither a `PlainTextWriter` nor a `JsonWriter` would fail the cast in `outputResult`. The model has only those two writers.
- Exceptions the backend throws that are not `DBusExecutionException`s (runtime errors) propagate uncaught in the source. The model's backend throws only D-Bus failures.
- Java's `e.getMessage()` can be null, and string concatenation then writes "null". The model treats every message as a string, so a null message is the text "null" supplied by the backend or decoder.
- Exit codes, retries, timeouts, deduplication and concurrency: the command has none of them.
- A separate "not found" error class: the command maps a missing D-Bus object to a `UserErrorException` (with a hint) and nothing else, and the model follows the code.
