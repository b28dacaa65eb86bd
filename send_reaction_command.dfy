/**
 * The `sendReaction` command of the signal-cli command line: it checks which
 * target the user named (recipients by phone number or one group), decodes the
 * group id, sends the reaction through one of the two reaction operations of the
 * `Signal` D-Bus interface, turns the D-Bus failures of that call into command
 * exceptions, and writes the timestamp of the sent reaction.
 *
 * The command is a pure function here: the group-id decoder, the `Signal`
 * backend and the `DbusSignalImpl` wrapper around a `Manager` are parameters,
 * each an arrow that answers a call with its outcome.
 */
module SendReactionCommand {
  import opened Options
  import opened LongText

  type byte = bv8

  /** The parsed command-line arguments of `sendReaction`. */
  datatype Namespace = Namespace(
    recipient: Option<seq<string>>,  // positional `recipient`, nargs("*"); absent is Java's null
    groupId: Option<string>,         // `-g`, `--group-id`, `--group`
    emoji: string,                   // `-e`, required
    remove: bool,                    // `-r`, store-true
    targetAuthor: string,            // `-a`, required
    targetTimestamp: int64           // `-t`, required, parsed as a long
  )

  /** What `Util.decodeGroupId(s).serialize()` yields: the group id's bytes or a format error. */
  datatype GroupIdDecoding = Serialized(bytes: seq<byte>) | GroupIdFormatException(message: string)

  /** The D-Bus failures the command tells apart, by their Java exception class. */
  datatype FailureKind =
    | UnknownObject         // org.freedesktop.dbus.errors.UnknownObject
    | InvalidNumber         // Signal.Error.InvalidNumber
    | GroupNotFound         // Signal.Error.GroupNotFound
    | OtherExecutionError   // any other DBusExecutionException

  datatype DBusFailure = DBusFailure(kind: FailureKind, message: string)

  /** What one reaction operation of the backend does: returns a timestamp or throws. */
  datatype SendOutcome = Sent(timestamp: int64) | Thrown(failure: DBusFailure)

  /** The two reaction operations of the `Signal` interface that the command uses. */
  datatype Signal = Signal(
    sendGroupMessageReaction: (string, bool, string, int64, seq<byte>) -> SendOutcome,
    sendMessageReaction: (string, bool, string, int64, seq<string>) -> SendOutcome
  )

  /** One backend call, with the arguments it was given. */
  datatype Call =
    | SendGroupMessageReaction(emoji: string, remove: bool, targetAuthor: string, targetTimestamp: int64, groupId: seq<byte>)
    | SendMessageReaction(emoji: string, remove: bool, targetAuthor: string, targetTimestamp: int64, recipients: seq<string>)
  {
    function Answer(signal: Signal): SendOutcome {
      match this
      case SendGroupMessageReaction(e, r, a, t, g) => signal.sendGroupMessageReaction(e, r, a, t, g)
      case SendMessageReaction(e, r, a, t, rs) => signal.sendMessageReaction(e, r, a, t, rs)
    }
  }

  /** The runtime class of the command's `OutputWriter`. */
  datatype OutputWriter = PlainTextWriter | JsonWriter

  /** What the writer is asked to write: one text line, or one JSON object. */
  datatype Output = Line(text: string) | JsonObject(entries: map<string, int64>)

  datatype CommandException = UserErrorException(message: string) | UnexpectedErrorException(message: string)

  /** How the command ends: something was written, or a command exception was thrown. */
  datatype Status = Written(output: Output) | Raised(exception: CommandException)

  /** One run of the command: the backend call it made (if any) and how it ended. */
  datatype Result = Result(call: Option<Call>, status: Status)

  const NoRecipientsMessage := "No recipients given"
  const BothTargetsMessage := "You cannot specify recipients by phone number and groups at the same time"
  const InvalidGroupIdPrefix := "Invalid group id: "
  const UnknownObjectPrefix := "Failed to find dbus object, maybe missing the -u flag: "
  const InvalidNumberPrefix := "Invalid number: "
  const GroupNotFoundPrefix := "Failed to send to group: "
  const SendFailedPrefix := "Failed to send message: "

  predicate NoRecipients(ns: Namespace) {
    ns.recipient.None? || |ns.recipient.value| == 0
  }

  // ---------------------------------------------------------------------------
  // The catch chain around the backend call

  /** The exception classes named by the catch clauses. */
  datatype ExceptionClass = UnknownObjectClass | InvalidNumberClass | GroupNotFoundClass | DBusExecutionExceptionClass

  /** Java's `instanceof`: every D-Bus failure kind is a DBusExecutionException. */
  predicate InstanceOf(kind: FailureKind, cls: ExceptionClass) {
    match cls
    case UnknownObjectClass => kind == UnknownObject
    case InvalidNumberClass => kind == InvalidNumber
    case GroupNotFoundClass => kind == GroupNotFound
    case DBusExecutionExceptionClass => true
  }

  /** `catch (C e) { throw new UserErrorException|UnexpectedErrorException(prefix + e.getMessage()); }` */
  datatype CatchClause = CatchClause(catches: ExceptionClass, userError: bool, prefix: string)

  function Rethrow(clause: CatchClause, f: DBusFailure): CommandException {
    if clause.userError then UserErrorException(clause.prefix + f.message)
    else UnexpectedErrorException(clause.prefix + f.message)
  }

  predicate Catches(clause: CatchClause, f: DBusFailure) {
    InstanceOf(f.kind, clause.catches)
  }

  /** The catch clauses of the send, in the order they are written. */
  const SendCatchClauses: seq<CatchClause> := [
    CatchClause(UnknownObjectClass, true, UnknownObjectPrefix),
    CatchClause(InvalidNumberClass, true, InvalidNumberPrefix),
    CatchClause(GroupNotFoundClass, true, GroupNotFoundPrefix),
    CatchClause(DBusExecutionExceptionClass, false, SendFailedPrefix)
  ]

  /**
   * Java's choice of handler: the first clause whose class the failure is an
   * instance of handles it; with none, the failure propagates (None).
   */
  function FirstCatch(clauses: seq<CatchClause>, f: DBusFailure): (r: Option<CommandException>)
    ensures r.None? <==> forall i :: 0 <= i < |clauses| ==> !Catches(clauses[i], f)
    ensures r.Some? ==>
      exists i :: 0 <= i < |clauses| && Catches(clauses[i], f) && r.value == Rethrow(clauses[i], f)
        && forall j :: 0 <= j < i ==> !Catches(clauses[j], f)
  {
    if |clauses| == 0 then None
    else if Catches(clauses[0], f) then Some(Rethrow(clauses[0], f))
    else
      var r := FirstCatch(clauses[1..], f);
      assert forall i :: 1 <= i < |clauses| ==> clauses[i] == clauses[1..][i - 1];
      r
  }

  /** The position, in `SendCatchClauses`, of the clause written for each failure kind. */
  function OwnClause(kind: FailureKind): nat {
    match kind
    case UnknownObject => 0
    case InvalidNumber => 1
    case GroupNotFound => 2
    case OtherExecutionError => 3
  }

  /**
   * The catch chain of the send is total and every failure is handled by the
   * clause written for its kind: the general DBusExecutionException clause,
   * which matches every failure, comes last and so handles only the kinds that
   * have no clause of their own.
   */
  lemma {:induction false} SendCatchClausesTable(f: DBusFailure)
    ensures Catches(SendCatchClauses[3], f)
    ensures OwnClause(f.kind) < 3 <==> f.kind != OtherExecutionError
    ensures FirstCatch(SendCatchClauses, f) == Some(Rethrow(SendCatchClauses[OwnClause(f.kind)], f))
  {
    var c0 := SendCatchClauses;
    var c1, c2, c3 := c0[1..], c0[2..], c0[3..];
    assert c1[1..] == c2 && c2[1..] == c3;
    assert c3[0] == CatchClause(DBusExecutionExceptionClass, false, SendFailedPrefix);
    assert FirstCatch(c3, f) == Some(UnexpectedErrorException(SendFailedPrefix + f.message));
    assert c2[0].catches == GroupNotFoundClass;
    assert c1[0].catches == InvalidNumberClass;
  }

  /** The command exception the catch chain makes of a failed send. */
  function CatchSendFailure(f: DBusFailure): (e: CommandException)
    ensures f.kind == UnknownObject ==> e == UserErrorException(UnknownObjectPrefix + f.message)
    ensures f.kind == InvalidNumber ==> e == UserErrorException(InvalidNumberPrefix + f.message)
    ensures f.kind == GroupNotFound ==> e == UserErrorException(GroupNotFoundPrefix + f.message)
    ensures f.kind == OtherExecutionError ==> e == UnexpectedErrorException(SendFailedPrefix + f.message)
  {
    SendCatchClausesTable(f);
    match FirstCatch(SendCatchClauses, f)
    case Some(e) => e
  }

  // ---------------------------------------------------------------------------
  // Output

  /** `outputResult`: the plain-text writer prints the timestamp as one line, any other writer is a JSON writer. */
  function OutputResult(outputWriter: OutputWriter, timestamp: int64): (o: Output)
    ensures outputWriter.PlainTextWriter? ==>
      o.Line? && CanonicalDecimal(o.text) && ParseLong(o.text) == Some(timestamp as int)
    ensures outputWriter.JsonWriter? ==>
      o.JsonObject? && o.entries.Keys == {"timestamp"} && o.entries["timestamp"] == timestamp
  {
    match outputWriter
    case PlainTextWriter =>
      LongRoundTrip(timestamp);
      Line(LongToString(timestamp))
    case JsonWriter => JsonObject(map["timestamp" := timestamp])
  }

  /** The plain line identifies the timestamp: two sends print the same line only for the same timestamp. */
  lemma PlainOutputIdentifiesTimestamp(t: int64, u: int64)
    requires OutputResult(PlainTextWriter, t) == OutputResult(PlainTextWriter, u)
    ensures t == u
  {
    LongToStringInjective(t, u);
  }

  // ---------------------------------------------------------------------------
  // The command

  /** The end of the `try` block: the backend's answer, written out or turned into a command exception. */
  function Complete(answer: SendOutcome, outputWriter: OutputWriter): Status {
    match answer
    case Sent(timestamp) => Written(OutputResult(outputWriter, timestamp))
    case Thrown(failure) => Raised(CatchSendFailure(failure))
  }

  /**
   * `handleCommand(Namespace, Signal, OutputWriter)`: the two target checks,
   * then group-id decoding, then exactly one send, whose answer is written out
   * or classified.
   */
  function HandleCommand(ns: Namespace, signal: Signal, decodeGroupId: string -> GroupIdDecoding,
                         outputWriter: OutputWriter): (r: Result)
    // rejected before any backend call
    ensures NoRecipients(ns) && ns.groupId.None? ==>
      r == Result(None, Raised(UserErrorException(NoRecipientsMessage)))
    ensures !NoRecipients(ns) && ns.groupId.Some? ==>
      r == Result(None, Raised(UserErrorException(BothTargetsMessage)))
    ensures NoRecipients(ns) && ns.groupId.Some? && decodeGroupId(ns.groupId.value).GroupIdFormatException? ==>
      r == Result(None, Raised(UserErrorException(InvalidGroupIdPrefix + decodeGroupId(ns.groupId.value).message)))
    // otherwise exactly one call, with the reaction's arguments unchanged
    ensures r.call.None? <==>
      (NoRecipients(ns) == ns.groupId.None?
       || (ns.groupId.Some? && decodeGroupId(ns.groupId.value).GroupIdFormatException?))
    ensures r.call.Some? ==>
      && r.call.value.emoji == ns.emoji
      && r.call.value.remove == ns.remove
      && r.call.value.targetAuthor == ns.targetAuthor
      && r.call.value.targetTimestamp == ns.targetTimestamp
    ensures r.call.Some? && ns.groupId.Some? ==>
      r.call.value.SendGroupMessageReaction? && decodeGroupId(ns.groupId.value) == Serialized(r.call.value.groupId)
    ensures r.call.Some? && ns.groupId.None? ==>
      r.call.value.SendMessageReaction? && ns.recipient == Some(r.call.value.recipients)
      && |r.call.value.recipients| > 0
    // output only for a returned timestamp; every failure of the call becomes a command exception
    ensures r.status.Written? <==> r.call.Some? && r.call.value.Answer(signal).Sent?
    ensures r.call.Some? && r.call.value.Answer(signal).Sent? ==>
      r.status.output == OutputResult(outputWriter, r.call.value.Answer(signal).timestamp)
    ensures r.call.Some? && r.call.value.Answer(signal).Thrown? ==>
      r.status.exception == CatchSendFailure(r.call.value.Answer(signal).failure)
  {
    var noRecipients := NoRecipients(ns);
    if noRecipients && ns.groupId.None? then
      Result(None, Raised(UserErrorException(NoRecipientsMessage)))
    else if !noRecipients && ns.groupId.Some? then
      Result(None, Raised(UserErrorException(BothTargetsMessage)))
    else if ns.groupId.Some? then
      match decodeGroupId(ns.groupId.value)
      case GroupIdFormatException(message) =>
        Result(None, Raised(UserErrorException(InvalidGroupIdPrefix + message)))
      case Serialized(groupId) =>
        var call := SendGroupMessageReaction(ns.emoji, ns.remove, ns.targetAuthor, ns.targetTimestamp, groupId);
        Result(Some(call), Complete(call.Answer(signal), outputWriter))
    else
      var call := SendMessageReaction(ns.emoji, ns.remove, ns.targetAuthor, ns.targetTimestamp, ns.recipient.value);
      Result(Some(call), Complete(call.Answer(signal), outputWriter))
  }

  /**
   * `handleCommand(Namespace, Manager, OutputWriter)`: wraps the manager in a
   * `DbusSignalImpl` and runs the Signal-backed command on it.
   */
  function HandleCommandWithManager<M>(ns: Namespace, m: M, dbusSignalImpl: M -> Signal,
                                       decodeGroupId: string -> GroupIdDecoding, outputWriter: OutputWriter): (r: Result)
    ensures r == HandleCommand(ns, dbusSignalImpl(m), decodeGroupId, outputWriter)
  {
    HandleCommand(ns, dbusSignalImpl(m), decodeGroupId, outputWriter)
  }

  // ---------------------------------------------------------------------------
  // Properties relating several runs

  /**
   * Both target checks and the group-id decoding come before the send: when
   * the command stops without a call, neither the backend nor the output mode
   * had any say in the result.
   */
  lemma RejectionIgnoresBackend(ns: Namespace, s1: Signal, s2: Signal, decodeGroupId: string -> GroupIdDecoding,
                                w1: OutputWriter, w2: OutputWriter)
    requires HandleCommand(ns, s1, decodeGroupId, w1).call.None?
    ensures HandleCommand(ns, s1, decodeGroupId, w1) == HandleCommand(ns, s2, decodeGroupId, w2)
    ensures HandleCommand(ns, s1, decodeGroupId, w1).status.Raised?
  {
  }

  /** The target checks come before decoding: a failed check never consults the decoder. */
  lemma TargetChecksPrecedeDecoding(ns: Namespace, signal: Signal, d1: string -> GroupIdDecoding,
                                    d2: string -> GroupIdDecoding, outputWriter: OutputWriter)
    requires NoRecipients(ns) == ns.groupId.None?
    ensures HandleCommand(ns, signal, d1, outputWriter) == HandleCommand(ns, signal, d2, outputWriter)
  {
  }

  /** When both target checks pass, exactly one of the two targets was given. */
  lemma PassedChecksMeanOneTarget(ns: Namespace, signal: Signal, decodeGroupId: string -> GroupIdDecoding,
                                  outputWriter: OutputWriter)
    requires HandleCommand(ns, signal, decodeGroupId, outputWriter).status != Raised(UserErrorException(NoRecipientsMessage))
    requires HandleCommand(ns, signal, decodeGroupId, outputWriter).status != Raised(UserErrorException(BothTargetsMessage))
    ensures ns.groupId.Some? <==> NoRecipients(ns)
  {
  }

  /**
   * The command is backend-agnostic: two backends that answer the call the
   * command makes alike give the same result.
   */
  lemma SameAnswerSameResult(ns: Namespace, s1: Signal, s2: Signal, decodeGroupId: string -> GroupIdDecoding,
                             outputWriter: OutputWriter)
    requires var r := HandleCommand(ns, s1, decodeGroupId, outputWriter);
      r.call.Some? ==> r.call.value.Answer(s1) == r.call.value.Answer(s2)
    ensures HandleCommand(ns, s1, decodeGroupId, outputWriter) == HandleCommand(ns, s2, decodeGroupId, outputWriter)
  {
  }

  /**
   * The Manager-backed entry point is indistinguishable from the Signal-backed
   * one on any backend that answers the call as the wrapped manager does.
   */
  lemma ManagerEntryMatchesSignalEntry<M>(ns: Namespace, m: M, dbusSignalImpl: M -> Signal, signal: Signal,
                                          decodeGroupId: string -> GroupIdDecoding, outputWriter: OutputWriter)
    requires var r := HandleCommand(ns, signal, decodeGroupId, outputWriter);
      r.call.Some? ==> r.call.value.Answer(dbusSignalImpl(m)) == r.call.value.Answer(signal)
    ensures HandleCommandWithManager(ns, m, dbusSignalImpl, decodeGroupId, outputWriter)
         == HandleCommand(ns, signal, decodeGroupId, outputWriter)
  {
    SameAnswerSameResult(ns, signal, dbusSignalImpl(m), decodeGroupId, outputWriter);
  }

  /**
   * A reaction to one direct recipient: the recipient send is called with the
   * arguments as given, and a returned timestamp is written back.
   */
  lemma DirectReactionScenario(signal: Signal, decodeGroupId: string -> GroupIdDecoding, outputWriter: OutputWriter)
    requires signal.sendMessageReaction("\U{1F44D}", false, "+15559876543", 1700000000000, ["+15551234567"])
          == Sent(1700000000500)
    ensures var ns := Namespace(Some(["+15551234567"]), None, "\U{1F44D}", false, "+15559876543", 1700000000000);
      var r := HandleCommand(ns, signal, decodeGroupId, outputWriter);
      && r.call == Some(SendMessageReaction("\U{1F44D}", false, "+15559876543", 1700000000000, ["+15551234567"]))
      && (outputWriter.JsonWriter? ==> r.status == Written(JsonObject(map["timestamp" := 1700000000500])))
      && (outputWriter.PlainTextWriter? ==> r.status == Written(Line("1700000000500")))
  {
    ScenarioTimestampText();
  }

  lemma ScenarioTimestampText()
    ensures LongToString(1700000000500) == "1700000000500"
  {
    assert NatToDigits(1) == "1";
    assert NatToDigits(17) == "17";
    assert NatToDigits(170) == "170";
    assert NatToDigits(1700) == "1700";
    assert NatToDigits(17000) == "17000";
    assert NatToDigits(170000) == "170000";
    assert NatToDigits(1700000) == "1700000";
    assert NatToDigits(17000000) == "17000000";
    assert NatToDigits(170000000) == "170000000";
    assert NatToDigits(1700000000) == "1700000000";
    assert NatToDigits(17000000005) == "17000000005";
    assert NatToDigits(170000000050) == "170000000050";
    assert NatToDigits(1700000000500) == "1700000000500";
  }
}
