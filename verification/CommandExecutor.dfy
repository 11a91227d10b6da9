/** The executor that stores a command before running its handler and a receipt after, over the
    command and receipt tables with their constraints. A crash may strike between any two effects. */
module CommandExecutor {
  import opened Text

  datatype Command = Command(commandId: string, idempotencyKey: string, workId: string)

  datatype CommandRow = CommandRow(idempotencyKey: string, workId: string)

  datatype Status = Success | Failed

  datatype ReceiptRow = ReceiptRow(idempotencyKey: string, status: Status)

  /** What survives a crash: the tables, and the handler runs that reached the outside world. */
  datatype Durable = Durable(
    workItems: set<string>,
    commands: map<string, CommandRow>,
    receipts: map<string, ReceiptRow>,
    handled: seq<string>)

  datatype CrashPoint = NoCrash | BeforeInsert | AfterInsert | AfterHandler

  datatype Reply = Returned(status: Status) | Raised | Crashed

  /** One `execute` call: what the handler would answer, and where the process dies if it does. */
  datatype Call = Call(cmd: Command, outcome: Status, crash: CrashPoint)

  predicate HasReceipt(d: Durable, key: string) {
    exists id :: id in d.receipts && d.receipts[id].idempotencyKey == key
  }

  /** The insert would break the primary key or the unique idempotency key. */
  predicate Duplicate(d: Durable, cmd: Command) {
    cmd.commandId in d.commands || exists id :: id in d.commands && d.commands[id].idempotencyKey == cmd.idempotencyKey
  }

  /** The call gets as far as running the handler. */
  predicate RunsHandler(d: Durable, c: Call) {
    && !HasReceipt(d, c.cmd.idempotencyKey)
    && c.crash !in {BeforeInsert, AfterInsert}
    && (Duplicate(d, c.cmd) || c.cmd.workId in d.workItems)
  }

  function AfterCommandRow(d: Durable, cmd: Command): Durable {
    if Duplicate(d, cmd) || cmd.workId !in d.workItems then d
    else d.(commands := d.commands[cmd.commandId := CommandRow(cmd.idempotencyKey, cmd.workId)])
  }

  /** The durable state after one call. */
  function Next(d: Durable, c: Call): Durable {
    if HasReceipt(d, c.cmd.idempotencyKey) || c.crash == BeforeInsert then d
    else
      var stored := AfterCommandRow(d, c.cmd);
      if !RunsHandler(d, c) then stored
      else
        var ran := stored.(handled := stored.handled + [c.cmd.idempotencyKey]);
        // the receipt refers to its command row, which must exist
        if c.crash == AfterHandler || c.cmd.commandId !in stored.commands then ran
        else ran.(receipts := ran.receipts[c.cmd.commandId := ReceiptRow(c.cmd.idempotencyKey, c.outcome)])
  }

  class Executor {
    var workItems: set<string>
    var commands: map<string, CommandRow>
    var receipts: map<string, ReceiptRow>
    var handled: seq<string>

    function State(): Durable
      reads this
    {
      Durable(workItems, commands, receipts, handled)
    }

    constructor (workItems: set<string>)
      ensures State() == Durable(workItems, map[], map[], [])
    {
      this.workItems := workItems;
      commands, receipts, handled := map[], map[], [];
    }

    method SelectReceipt(key: string) returns (status: Option<Status>)
      ensures status.Some? <==> HasReceipt(State(), key)
      ensures status.Some? ==> exists id :: id in receipts && receipts[id] == ReceiptRow(key, status.value)
    {
      var hits := set id | id in receipts && receipts[id].idempotencyKey == key;
      if hits == {} {
        assert forall id | id in receipts && receipts[id].idempotencyKey == key :: id in hits;
        return None;
      }
      var id :| id in hits;
      assert receipts[id] == ReceiptRow(key, receipts[id].status);
      status := Some(receipts[id].status);
    }

    method Execute(c: Call) returns (reply: Reply)
      modifies this
      ensures State() == Next(old(State()), c)
      ensures old(HasReceipt(State(), c.cmd.idempotencyKey)) ==>
                reply.Returned? && exists id ::
                  id in receipts && receipts[id] == ReceiptRow(c.cmd.idempotencyKey, reply.status)
      ensures old(!HasReceipt(State(), c.cmd.idempotencyKey)) ==>
                var refused := old(!Duplicate(State(), c.cmd) && c.cmd.workId !in workItems);
                reply == if c.crash == BeforeInsert then Crashed
                         else if refused then Raised
                         else if c.crash != NoCrash then Crashed
                         else if c.cmd.commandId !in commands then Raised
                         else Returned(c.outcome)
    {
      var cmd := c.cmd;
      var row := SelectReceipt(cmd.idempotencyKey);
      if row.Some? {
        return Returned(row.value);
      }
      if c.crash == BeforeInsert {
        return Crashed;
      }
      var sameKey := set id | id in commands && commands[id].idempotencyKey == cmd.idempotencyKey;
      assert Duplicate(State(), cmd) <==> cmd.commandId in commands || sameKey != {} by {
        if exists id :: id in commands && commands[id].idempotencyKey == cmd.idempotencyKey {
          var id :| id in commands && commands[id].idempotencyKey == cmd.idempotencyKey;
          assert id in sameKey;
        } else {
          assert sameKey == {};
        }
      }
      if cmd.commandId !in commands && sameKey == {} {
        if cmd.workId !in workItems {
          return Raised;
        }
        commands := commands[cmd.commandId := CommandRow(cmd.idempotencyKey, cmd.workId)];
      } // otherwise the command is already stored, and the handler reconciles with the outside
      if c.crash == AfterInsert {
        return Crashed;
      }
      handled := handled + [cmd.idempotencyKey];
      if c.crash == AfterHandler {
        return Crashed;
      }
      if cmd.commandId !in commands {
        return Raised;
      }
      receipts := receipts[cmd.commandId := ReceiptRow(cmd.idempotencyKey, c.outcome)];
      reply := Returned(c.outcome);
    }
  }

  // ---------------------------------------------------------------------------------------------
  // Runs
  // ---------------------------------------------------------------------------------------------

  function Run(d: Durable, calls: seq<Call>): Durable
    decreases |calls|
  {
    if calls == [] then d else Run(Next(d, calls[0]), calls[1..])
  }

  /** The crashes between handler and receipt suffered for one key. */
  function LostReceipts(d: Durable, calls: seq<Call>, key: string): nat
    decreases |calls|
  {
    if calls == [] then 0
    else (if LosesReceipt(d, calls[0], key) then 1 else 0) + LostReceipts(Next(d, calls[0]), calls[1..], key)
  }

  predicate LosesReceipt(d: Durable, c: Call, key: string) {
    c.cmd.idempotencyKey == key && RunsHandler(d, c) && c.crash == AfterHandler
  }

  /** Commands as they are made in one place: the command id is derived from the idempotency key, and
      the derivation does not collide. */
  ghost predicate Canonical(cid: string -> string, calls: seq<Call>) {
    && (forall a, b | cid(a) == cid(b) :: a == b)
    && (forall i | 0 <= i < |calls| :: calls[i].cmd.commandId == cid(calls[i].cmd.idempotencyKey))
  }

  /** Rows sit under the ids of their keys, and every receipt has its command row. */
  ghost predicate Consistent(cid: string -> string, d: Durable) {
    && (forall id | id in d.commands :: id == cid(d.commands[id].idempotencyKey))
    && (forall id | id in d.receipts :: id == cid(d.receipts[id].idempotencyKey) && id in d.commands)
  }

  lemma {:induction false} CommandRowIsKept(cid: string -> string, d: Durable, cmd: Command)
    requires Consistent(cid, d) && Canonical(cid, []) && cmd.commandId == cid(cmd.idempotencyKey)
    ensures Consistent(cid, AfterCommandRow(d, cmd))
    ensures Duplicate(d, cmd) <==> cmd.commandId in d.commands
    ensures cmd.commandId in d.receipts ==> HasReceipt(d, cmd.idempotencyKey)
  {
    if cmd.commandId in d.receipts {
      assert cid(d.receipts[cmd.commandId].idempotencyKey) == cid(cmd.idempotencyKey);
    }
  }

  lemma {:induction false} StepKeepsConsistent(cid: string -> string, d: Durable, c: Call)
    requires Consistent(cid, d) && Canonical(cid, [c])
    ensures Consistent(cid, Next(d, c))
    ensures Next(d, c).receipts ==
            if RunsHandler(d, c) && c.crash == NoCrash
            then d.receipts[c.cmd.commandId := ReceiptRow(c.cmd.idempotencyKey, c.outcome)] else d.receipts
    ensures RunsHandler(d, c) ==> c.cmd.commandId !in d.receipts
  {
    assert [c][0] == c;
    CommandRowIsKept(cid, d, c.cmd);
    if RunsHandler(d, c) && c.crash == NoCrash {
      var stored := AfterCommandRow(d, c.cmd);
      assert c.cmd.commandId in stored.commands;
      ReceiptIsKept(cid, stored, c);
    }
  }

  lemma {:induction false} ReceiptIsKept(cid: string -> string, stored: Durable, c: Call)
    requires Consistent(cid, stored) && c.cmd.commandId == cid(c.cmd.idempotencyKey)
        && c.cmd.commandId in stored.commands
    ensures Consistent(cid, stored.(handled := stored.handled + [c.cmd.idempotencyKey],
                                    receipts := stored.receipts[c.cmd.commandId :=
                                      ReceiptRow(c.cmd.idempotencyKey, c.outcome)]))
  {}

  /** One call seen from one key. */
  lemma {:induction false} StepCounts(cid: string -> string, d: Durable, c: Call, key: string)
    requires Consistent(cid, d) && Canonical(cid, [c])
    ensures HasReceipt(Next(d, c), key) <==>
            HasReceipt(d, key) || (key == c.cmd.idempotencyKey && RunsHandler(d, c) && c.crash == NoCrash)
    ensures Occurrences(Next(d, c).handled, key) ==
            Occurrences(d.handled, key) + (if key == c.cmd.idempotencyKey && RunsHandler(d, c) then 1 else 0)
  {
    StepKeepsConsistent(cid, d, c);
    if RunsHandler(d, c) {
      assert Next(d, c).handled == d.handled + [c.cmd.idempotencyKey];
      assert Next(d, c).handled[..|d.handled|] == d.handled;
      if c.crash == NoCrash {
        NewReceiptIsSeen(d.receipts, Next(d, c).receipts, c, key);
      }
    } else {
      assert Next(d, c).handled == d.handled;
    }
  }

  lemma {:induction false} NewReceiptIsSeen(
    before: map<string, ReceiptRow>, after: map<string, ReceiptRow>, c: Call, key: string)
    requires c.cmd.commandId !in before
    requires after == before[c.cmd.commandId := ReceiptRow(c.cmd.idempotencyKey, c.outcome)]
    ensures (exists id :: id in after && after[id].idempotencyKey == key) <==>
            key == c.cmd.idempotencyKey || exists id :: id in before && before[id].idempotencyKey == key
  {
    assert c.cmd.commandId in after && after[c.cmd.commandId].idempotencyKey == c.cmd.idempotencyKey;
    if id :| id in before && before[id].idempotencyKey == key {
      assert id in after && after[id].idempotencyKey == key;
    }
  }

  /** The exact count, for any calls and any crashes: the handler runs of one key are the crashes between
      handler and receipt, plus one once the key has its receipt. Every receipt has a command row and
      never changes again, and once a key has one its handler has run for the last time. */
  lemma {:induction false} HandlerRunsAreExact(cid: string -> string, d: Durable, calls: seq<Call>, key: string)
    requires Consistent(cid, d) && Canonical(cid, calls)
    ensures var end := Run(d, calls);
            && Occurrences(end.handled, key) + (if HasReceipt(d, key) then 1 else 0)
               == Occurrences(d.handled, key) + LostReceipts(d, calls, key) + (if HasReceipt(end, key) then 1 else 0)
            && (HasReceipt(d, key) ==>
                  HasReceipt(end, key) && LostReceipts(d, calls, key) == 0
                  && Occurrences(end.handled, key) == Occurrences(d.handled, key))
            && (forall id | id in end.receipts :: id in end.commands)
            && (forall id | id in d.receipts :: id in end.receipts && end.receipts[id] == d.receipts[id])
    decreases |calls|
  {
    if calls != [] {
      var c := calls[0];
      assert [c][0] == c;
      StepKeepsConsistent(cid, d, c);
      StepCounts(cid, d, c, key);
      HandlerRunsAreExact(cid, Next(d, c), calls[1..], key);
    }
  }

  /** From an empty store. */
  lemma {:induction false} AtMostOneRunMoreThanLostReceipts(
    cid: string -> string, workItems: set<string>, calls: seq<Call>, key: string)
    requires Canonical(cid, calls)
    ensures var start := Durable(workItems, map[], map[], []);
            Occurrences(Run(start, calls).handled, key) <= 1 + LostReceipts(start, calls, key)
  {
    HandlerRunsAreExact(cid, Durable(workItems, map[], map[], []), calls, key);
  }

  /** A call that does not die leaves its key with a receipt, the handler run exactly if there was none; it
      does not matter whether its row was stored now or by a call that died before its handler. Only a new
      command of an unknown work item is refused, and then nothing changes. */
  lemma {:induction false} UncrashedCallSettles(cid: string -> string, d: Durable, c: Call)
    requires Consistent(cid, d) && Canonical(cid, [c]) && c.crash == NoCrash
    ensures var key, after := c.cmd.idempotencyKey, Next(d, c);
            if HasReceipt(d, key) then after == d
            else if c.cmd.commandId in d.commands || c.cmd.workId in d.workItems then
              && after.handled == d.handled + [key] && after.commands.Keys == d.commands.Keys + {c.cmd.commandId}
              && after.receipts == d.receipts[c.cmd.commandId := ReceiptRow(key, c.outcome)] && HasReceipt(after, key)
            else after == d
  {
    assert [c][0] == c;
    CommandRowIsKept(cid, d, c.cmd);
    StepKeepsConsistent(cid, d, c);
    StepCounts(cid, d, c, c.cmd.idempotencyKey);
  }

  /** A call that dies before its handler is made up for by the next: the handler has then run once, as if
      nothing had died. */
  lemma {:induction false} RetryMakesUpForACrash(cid: string -> string, d: Durable, c: Call, again: Call)
    requires Consistent(cid, d) && Canonical(cid, [c, again]) && again.cmd == c.cmd
    requires c.crash in {BeforeInsert, AfterInsert} && again.crash == NoCrash
    ensures Run(d, [c, again]) == Next(d, again)
  {
    assert [c, again][0] == c && [c, again][1] == again && [c, again][1..] == [again] && [again][1..] == [];
    assert [c][0] == c && [again][0] == again;
    CommandRowIsKept(cid, d, c.cmd);
    StepKeepsConsistent(cid, d, c);
    CommandRowIsKept(cid, Next(d, c), c.cmd);
    assert Run(d, [c, again]) == Run(Next(d, c), [again]) == Next(Next(d, c), again);
  }

  /** Why the ids must be derived: a stored key called again under another id runs the handler on every
      call, with no crash in sight, and never gets a receipt. */
  lemma {:induction false} ForeignIdNeverSettles(n: nat)
    ensures var cmd := Command("b", "key", "w");
            var stored := Durable({"w"}, map["a" := CommandRow("key", "w")], map[], []);
            var calls := seq(n, i => Call(cmd, Success, NoCrash));
            && Occurrences(Run(stored, calls).handled, "key") == n
            && LostReceipts(stored, calls, "key") == 0 && !HasReceipt(Run(stored, calls), "key")
  {
    ForeignIdRun(n, []);
  }

  lemma {:induction false} ForeignIdRun(n: nat, handled: seq<string>)
    ensures var cmd := Command("b", "key", "w");
            var stored := Durable({"w"}, map["a" := CommandRow("key", "w")], map[], handled);
            var calls := seq(n, i => Call(cmd, Success, NoCrash));
            && Occurrences(Run(stored, calls).handled, "key") == n + Occurrences(handled, "key")
            && LostReceipts(stored, calls, "key") == 0 && !HasReceipt(Run(stored, calls), "key")
  {
    var c := Call(Command("b", "key", "w"), Success, NoCrash);
    var stored := Durable({"w"}, map["a" := CommandRow("key", "w")], map[], handled);
    if n > 0 {
      assert stored.commands["a"].idempotencyKey == "key";
      assert Duplicate(stored, c.cmd) && RunsHandler(stored, c);
      var next := Next(stored, c);
      assert next == stored.(handled := handled + ["key"]);
      assert next.handled[..|next.handled| - 1] == handled;
      assert seq(n, i => c)[1..] == seq(n - 1, i => c);
      ForeignIdRun(n - 1, handled + ["key"]);
    }
  }
}
