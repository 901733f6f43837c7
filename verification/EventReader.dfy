/** The reader as it runs: tool events are shared objects, completed in place after their turn may be out. */
module EventReader {
  import opened Wrappers
  import opened EventLog
  import opened EventTurns

  class ToolEvent {
    const toolName: string
    const input: Option<string>
    var answer: Option<Answer>

    constructor (toolName: string, input: Option<string>, answer: Option<Answer>)
      ensures Value() == ToolValue(toolName, input, answer)
    {
      this.toolName, this.input, this.answer := toolName, input, answer;
    }

    function Value(): ToolValue
      reads this
    {
      ToolValue(toolName, input, answer)
    }
  }

  datatype Turn = Turn(user: string, assistant: string, toolEvents: seq<ToolEvent>)

  const EMPTY := Turn("", "", [])

  type Objects = map<nat, ToolEvent>

  /** The list holds the objects of these entries. */
  ghost predicate Holds(objs: Objects, events: seq<ToolEvent>, entries: seq<nat>) {
    && |events| == |entries|
    && forall i | 0 <= i < |entries| :: entries[i] in objs && events[i] == objs[entries[i]]
  }

  ghost predicate TurnHolds(objs: Objects, t: Turn, s: Segment) {
    t.user == s.user && t.assistant == s.assistant && Holds(objs, t.toolEvents, s.entries)
  }

  ghost predicate AllHold(objs: Objects, turns: seq<Turn>, segments: seq<Segment>) {
    |turns| == |segments| && forall i | 0 <= i < |turns| :: TurnHolds(objs, turns[i], segments[i])
  }

  /** One object for each entry so far, with the value the log gives it so far. */
  ghost predicate Tracks(objs: Objects, log: seq<Ev>, n: nat)
    requires n <= |log|
    reads objs.Values
  {
    && (forall k: nat :: k in objs <==> k < n && IsEntry(log, k))
    && (forall a, b | a in objs && b in objs && a != b :: objs[a] != objs[b])
    && (forall k | k in objs :: objs[k].Value() == EntryValue(log, k, n))
  }

  /** Pending holds, for each id whose latest record is a tool record, the object of that record. */
  ghost predicate PendingIs(pending: map<string, ToolEvent>, objs: Objects, log: seq<Ev>, n: nat)
    requires n <= |log|
  {
    && (forall id :: id in pending <==> Last(log, n, id).Some? && log[Last(log, n, id).value].Tool?)
    && (forall id | id in pending :: Last(log, n, id).value in objs && pending[id] == objs[Last(log, n, id).value])
  }

  lemma {:induction false} PendingCompletes(pending: map<string, ToolEvent>, objs: Objects, log: seq<Ev>, n: nat)
    requires n < |log| && PendingIs(pending, objs, log, n) && IsAnswer(log[n])
    ensures IsOrphan(log, n) <==> log[n].id !in pending
    ensures log[n].id in pending ==> Completes(log, n, Last(log, n, log[n].id).value)
  {
    AnswerGoesToLatest(log, n);
  }

  /** What the next record changes in the values of earlier entries. */
  lemma ValueNext(log: seq<Ev>, k: nat, n: nat)
    requires k < n < |log| && IsEntry(log, k)
    ensures EntryValue(log, k, n + 1) ==
              if log[k].Tool? && Completes(log, n, k) then EntryValue(log, k, n).(answer := Some(AnswerOf(log[n])))
              else EntryValue(log, k, n)
  {
  }

  /** Objects of earlier entries keep their place when the next entry gets its object. */
  lemma HoldsGrows(objs: Objects, n: nat, o: ToolEvent, events: seq<ToolEvent>, entries: seq<nat>)
    requires n !in objs && Holds(objs, events, entries)
    ensures Holds(objs[n := o], events, entries)
    ensures Holds(objs[n := o], events + [o], entries + [n])
  {
  }

  lemma AllHoldGrows(objs: Objects, n: nat, o: ToolEvent, turns: seq<Turn>, segments: seq<Segment>)
    requires n !in objs && AllHold(objs, turns, segments)
    ensures AllHold(objs[n := o], turns, segments)
  {
    forall i | 0 <= i < |turns| ensures TurnHolds(objs[n := o], turns[i], segments[i]) {
      HoldsGrows(objs, n, o, turns[i].toolEvents, segments[i].entries);
    }
  }

  /** A record about no id leaves the pending table as it is. */
  lemma PendingStays(pending: map<string, ToolEvent>, objs: Objects, log: seq<Ev>, n: nat)
    requires n < |log| && PendingIs(pending, objs, log, n) && !log[n].Tool? && !IsAnswer(log[n])
    ensures PendingIs(pending, objs, log, n + 1)
  {
    assert forall id :: Last(log, n + 1, id) == Last(log, n, id);
  }

  lemma LastNext(log: seq<Ev>, n: nat, id: string)
    requires n < |log| && (log[n].Tool? || IsAnswer(log[n]))
    ensures Last(log, n + 1, id) == if id == log[n].id then Some(n) else Last(log, n, id)
  {
  }

  lemma PendingSet(pending: map<string, ToolEvent>, objs: Objects, log: seq<Ev>, n: nat, o: ToolEvent)
    requires n < |log| && PendingIs(pending, objs, log, n) && log[n].Tool? && n !in objs
    ensures PendingIs(pending[log[n].id := o], objs[n := o], log, n + 1)
  {
    forall id ensures Last(log, n + 1, id) == if id == log[n].id then Some(n) else Last(log, n, id) {
      LastNext(log, n, id);
    }
  }

  lemma PendingDeleted(pending: map<string, ToolEvent>, objs: Objects, log: seq<Ev>, n: nat)
    requires n < |log| && PendingIs(pending, objs, log, n) && IsAnswer(log[n])
    ensures PendingIs(pending - {log[n].id}, objs, log, n + 1)
  {
    forall id ensures Last(log, n + 1, id) == if id == log[n].id then Some(n) else Last(log, n, id) {
      LastNext(log, n, id);
    }
  }

  lemma PendingGrows(pending: map<string, ToolEvent>, objs: Objects, log: seq<Ev>, n: nat, k: nat, o: ToolEvent)
    requires n <= |log| && PendingIs(pending, objs, log, n) && k !in objs
    ensures PendingIs(pending, objs[k := o], log, n)
  {
  }

  /** A record about no id makes no entry and changes no earlier one. */
  lemma QuietValues(log: seq<Ev>, n: nat)
    requires n < |log| && !log[n].Tool? && !IsAnswer(log[n])
    ensures !IsEntry(log, n)
    ensures forall k: nat | k < n && IsEntry(log, k) :: EntryValue(log, k, n + 1) == EntryValue(log, k, n)
  {
    forall k: nat | k < n && IsEntry(log, k) ensures EntryValue(log, k, n + 1) == EntryValue(log, k, n) {
      ValueNext(log, k, n);
    }
  }

  lemma UserStep(log: seq<Ev>, n: nat, text: string)
    requires n < |log| && log[n] == User(text)
    ensures Flush(Read(log, n)).buf == FRESH
    ensures Read(log, n + 1) == Flush(Read(log, n)).(hasContent := true, buf := FRESH.(user := text))
  {
    ReadConserves(log, n);
    FlushKeeps(Read(log, n));
  }

  lemma OrphanStep(pending: map<string, ToolEvent>, objs: Objects, log: seq<Ev>, n: nat)
    requires n < |log| && PendingIs(pending, objs, log, n) && IsAnswer(log[n]) && log[n].id !in pending
    ensures IsEntry(log, n) && forall k | 0 <= k < n :: !Completes(log, n, k)
    ensures PendingIs(pending, objs, log, n + 1)
  {
    PendingCompletes(pending, objs, log, n);
    PendingDeleted(pending, objs, log, n);
    assert pending - {log[n].id} == pending;
  }

  /** The local variables of the parser; objs is the ghost record of which object stands for which entry. */
  class Reader {
    var turns: seq<Turn>
    var pending: map<string, ToolEvent>
    var buf: Turn
    var hasContent: bool
    ghost var objs: Objects

    /** The reader has taken in the first n records of the log. */
    ghost predicate HasRead(log: seq<Ev>, n: nat)
      requires n <= |log|
      reads this, objs.Values
    {
      && Tracks(objs, log, n)
      && PendingIs(pending, objs, log, n)
      && Reads(Read(log, n))
    }

    ghost predicate Reads(r: Reading)
      reads this
    {
      && AllHold(objs, turns, r.turns)
      && TurnHolds(objs, buf, r.buf)
      && hasContent == r.hasContent
    }

    constructor (ghost log: seq<Ev>)
      ensures HasRead(log, 0) && objs == map[]
    {
      turns, pending, buf, hasContent, objs := [], map[], EMPTY, false, map[];
    }

    /** A turn that says something goes out; the buffer starts fresh. */
    method FlushBuffer(ghost r: Reading)
      requires Reads(r)
      modifies this`turns, this`buf, this`hasContent
      ensures Reads(Flush(r))
      ensures old(hasContent) ==>
                && buf == EMPTY && !hasContent
                && turns == old(turns) +
                     if old(buf.user != "" || buf.assistant != "" || buf.toolEvents != []) then [old(buf)] else []
    {
      if !hasContent {
        return;
      }
      if buf != EMPTY {
        turns := turns + [buf];
      }
      buf, hasContent := EMPTY, false;
    }

    /** A new tool event at the end of the buffer. */
    method Push(ghost log: seq<Ev>, ghost n: nat, o: ToolEvent)
      requires n < |log| && IsEntry(log, n) && HasRead(log, n)
      requires o !in objs.Values && o.Value() == EntryValue(log, n, n + 1)
      requires forall k | 0 <= k < n :: !Completes(log, n, k)
      modifies this`buf, this`hasContent, this`objs
      ensures objs == old(objs)[n := o] && Tracks(objs, log, n + 1) && Reads(Read(log, n + 1))
    {
      AllHoldGrows(objs, n, o, turns, Read(log, n).turns);
      HoldsGrows(objs, n, o, buf.toolEvents, Read(log, n).buf.entries);
      forall k | k in objs ensures EntryValue(log, k, n + 1) == EntryValue(log, k, n) {
        ValueNext(log, k, n);
      }
      objs := objs[n := o];
      buf, hasContent := buf.(toolEvents := buf.toolEvents + [o]), true;
    }

    method TakeTool(log: seq<Ev>, ghost n: nat, id: string, name: string, input: string)
      requires n < |log| && HasRead(log, n) && log[n] == Tool(id, name, input)
      modifies this
      ensures HasRead(log, n + 1) && fresh(objs.Values - old(objs.Values))
    {
      var stub := new ToolEvent(name, Some(input), None);
      PendingSet(pending, objs, log, n, stub);
      Push(log, n, stub);
      pending := pending[id := stub];
    }

    /** An answer whose tool record is not waiting stands in the buffer as an event of its own. */
    method TakeOrphan(ghost log: seq<Ev>, ghost n: nat, a: Answer)
      requires n < |log| && HasRead(log, n) && IsAnswer(log[n]) && AnswerOf(log[n]) == a
      requires log[n].id !in pending
      modifies this`buf, this`hasContent, this`objs
      ensures HasRead(log, n + 1) && fresh(objs.Values - old(objs.Values))
    {
      var orphan := new ToolEvent("unknown", None, Some(a));
      assert PendingIs(pending, objs[n := orphan], log, n + 1) && IsEntry(log, n)
             && forall k | 0 <= k < n :: !Completes(log, n, k) by {
        OrphanStep(pending, objs, log, n);
        PendingGrows(pending, objs, log, n + 1, n, orphan);
      }
      Push(log, n, orphan);
    }

    method TakeAnswer(log: seq<Ev>, ghost n: nat, id: string, content: string, isError: bool)
      requires n < |log| && HasRead(log, n) && IsAnswer(log[n])
      requires id == log[n].id && Answer(content, isError) == AnswerOf(log[n])
      modifies this, objs.Values
      ensures HasRead(log, n + 1) && fresh(objs.Values - old(objs.Values))
    {
      if id in pending {
        PendingDeleted(pending, objs, log, n);
        Complete(log, n, pending[id], Answer(content, isError));
        pending := pending - {id};
      } else {
        TakeOrphan(log, n, Answer(content, isError));
      }
    }

    /** The tool record the answer is for gets it in place, wherever its object already is. */
    method Complete(ghost log: seq<Ev>, ghost n: nat, o: ToolEvent, a: Answer)
      requires n < |log| && HasRead(log, n) && IsAnswer(log[n]) && AnswerOf(log[n]) == a
      requires log[n].id in pending && o == pending[log[n].id]
      modifies o
      ensures Tracks(objs, log, n + 1) && Reads(Read(log, n + 1))
    {
      PendingCompletes(pending, objs, log, n);
      ghost var i := Last(log, n, log[n].id).value;
      assert Completes(log, n, i) && o == objs[i];
      o.answer := Some(a);
      forall k | k in objs ensures objs[k].Value() == EntryValue(log, k, n + 1) {
        ValueNext(log, k, n);
      }
    }

    /** One line of the log. */
    method Take(log: seq<Ev>, n: nat)
      requires n < |log| && HasRead(log, n)
      modifies this, objs.Values
      ensures HasRead(log, n + 1) && fresh(objs.Values - old(objs.Values))
    {
      match log[n] {
        case User(text) => TakeUser(log, n, text);
        case Assistant(text) => TakeAssistant(log, n, text);
        case Tool(id, name, input) => TakeTool(log, n, id, name, input);
        case ToolResult(id, content) => TakeAnswer(log, n, id, content, false);
        case ToolError(id, content) => TakeAnswer(log, n, id, content, true);
        case Ignored =>
          QuietValues(log, n);
          PendingStays(pending, objs, log, n);
      }
    }

    /** A user message starts a new turn. */
    method TakeUser(ghost log: seq<Ev>, ghost n: nat, text: string)
      requires n < |log| && HasRead(log, n) && log[n] == User(text)
      modifies this`turns, this`buf, this`hasContent
      ensures HasRead(log, n + 1)
    {
      UserStep(log, n, text);
      QuietValues(log, n);
      PendingStays(pending, objs, log, n);
      FlushBuffer(Read(log, n));
      buf, hasContent := buf.(user := text), true;
    }

    method TakeAssistant(ghost log: seq<Ev>, ghost n: nat, text: string)
      requires n < |log| && HasRead(log, n) && log[n] == Assistant(text)
      modifies this`buf, this`hasContent
      ensures HasRead(log, n + 1)
    {
      QuietValues(log, n);
      PendingStays(pending, objs, log, n);
      buf, hasContent := buf.(assistant := Extend(buf.assistant, text)), true;
    }

    /** Every line in order. */
    method TakeAll(log: seq<Ev>)
      requires HasRead(log, 0)
      modifies this, objs.Values
      ensures HasRead(log, |log|) && fresh(objs.Values - old(objs.Values))
    {
      ghost var before := objs.Values;
      var n := 0;
      while n < |log|
        invariant n <= |log|
        invariant HasRead(log, n)
        invariant fresh(objs.Values - before)
      {
        Take(log, n);
        n := n + 1;
      }
    }

    /** The last turn goes out when the log ends. */
    method Close(ghost log: seq<Ev>)
      requires HasRead(log, |log|)
      modifies this`turns, this`buf, this`hasContent
      ensures Tracks(objs, log, |log|) && AllHold(objs, turns, Turns(log))
    {
      FlushBuffer(Read(log, |log|));
    }
  }

  /** The turns of a log, one for every stretch between user messages that says something: each holds its entries'
      objects in order, and every object, whichever turn it is in, carries the answer the whole log gives its record. */
  method ParseEvents(log: seq<Ev>) returns (turns: seq<Turn>, ghost objs: Objects)
    ensures fresh(objs.Values) && Tracks(objs, log, |log|)
    ensures AllHold(objs, turns, TurnsFrom(log, 0))
  {
    TurnsAreStretches(log);
    var reader := new Reader(log);
    reader.TakeAll(log);
    reader.Close(log);
    turns, objs := reader.turns, reader.objs;
  }
}
