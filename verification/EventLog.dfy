/**
  The reference for the event-log reader: which entries each turn holds, and which result completes which tool
  record, said on the log alone. Entries are named by their position in the log.
 */
module EventLog {
  import opened Wrappers

  /** A parsed line, after the defaults for missing fields. Lines that do not parse, and kinds without effect on
      the turns, are Ignored. */
  datatype Ev =
    | User(text: string)
    | Assistant(text: string)
    | Tool(id: string, name: string, input: string)
    | ToolResult(id: string, content: string)
    | ToolError(id: string, content: string)
    | Ignored

  predicate IsAnswer(e: Ev) {
    e.ToolResult? || e.ToolError?
  }

  /** The record is a tool record or an answer with this id. */
  predicate About(e: Ev, id: string) {
    (e.Tool? || IsAnswer(e)) && e.id == id
  }

  /** The latest record about id among the first n. */
  function Last(log: seq<Ev>, n: nat, id: string): (r: Option<nat>)
    requires n <= |log|
    ensures r.Some? ==> r.value < n && About(log[r.value], id) && forall k | r.value < k < n :: !About(log[k], id)
    ensures r.None? ==> forall k | 0 <= k < n :: !About(log[k], id)
  {
    if n == 0 then None else if About(log[n - 1], id) then Some(n - 1) else Last(log, n - 1, id)
  }

  /** Answer j completes tool record i: same id, and no record about that id in between. */
  predicate Completes(log: seq<Ev>, j: nat, i: nat)
    requires j < |log|
  {
    IsAnswer(log[j]) && Last(log, j, log[j].id) == Some(i) && log[i].Tool?
  }

  predicate IsOrphan(log: seq<Ev>, j: nat)
    requires j < |log|
  {
    IsAnswer(log[j]) && !exists i | 0 <= i < j :: Completes(log, j, i)
  }

  /** Entries of the output: tool records and orphan answers. */
  predicate IsEntry(log: seq<Ev>, k: nat)
    requires k < |log|
  {
    log[k].Tool? || IsOrphan(log, k)
  }

  datatype Answer = Answer(content: string, isError: bool)

  datatype ToolValue = ToolValue(name: string, input: Option<string>, answer: Option<Answer>)

  function AnswerOf(e: Ev): Answer
    requires IsAnswer(e)
  {
    Answer(e.content, e.ToolError?)
  }

  /** The answer tool record i has received from the first n records. */
  function AnswerTo(log: seq<Ev>, i: nat, n: nat): Option<Answer>
    requires i < n <= |log|
  {
    if n == i + 1 then None
    else if Completes(log, n - 1, i) then Some(AnswerOf(log[n - 1]))
    else AnswerTo(log, i, n - 1)
  }

  function EntryValue(log: seq<Ev>, k: nat, n: nat): ToolValue
    requires k < n <= |log| && IsEntry(log, k)
  {
    if log[k].Tool? then ToolValue(log[k].name, Some(log[k].input), AnswerTo(log, k, n))
    else ToolValue("unknown", None, Some(AnswerOf(log[k])))
  }

  // ----- turns

  datatype Segment = Segment(user: string, assistant: string, entries: seq<nat>)

  datatype Reading = Reading(turns: seq<Segment>, buf: Segment, hasContent: bool)

  const FRESH := Segment("", "", [])

  /** A turn without any field is dropped. */
  function Flush(r: Reading): Reading {
    if !r.hasContent then r
    else Reading(if r.buf == FRESH then r.turns else r.turns + [r.buf], FRESH, false)
  }

  function Extend(text: string, more: string): string {
    if text != "" then text + "\n" + more else more
  }

  function ReadOne(log: seq<Ev>, r: Reading, k: nat): Reading
    requires k < |log|
  {
    match log[k]
    case User(text) => Flush(r).(hasContent := true, buf := FRESH.(user := text))
    case Assistant(text) => r.(hasContent := true, buf := r.buf.(assistant := Extend(r.buf.assistant, text)))
    case Ignored => r
    case _ => if IsEntry(log, k) then r.(hasContent := true, buf := r.buf.(entries := r.buf.entries + [k])) else r
  }

  function Read(log: seq<Ev>, n: nat): Reading
    requires n <= |log|
  {
    if n == 0 then Reading([], FRESH, false) else ReadOne(log, Read(log, n - 1), n - 1)
  }

  /** The turns of the whole log. */
  function Turns(log: seq<Ev>): seq<Segment> {
    Flush(Read(log, |log|)).turns
  }

  // ----- conservation

  /** The entries among the first n records, in log order. */
  function Entries(log: seq<Ev>, n: nat): seq<nat>
    requires n <= |log|
  {
    if n == 0 then [] else if IsEntry(log, n - 1) then Entries(log, n - 1) + [n - 1] else Entries(log, n - 1)
  }

  function AllEntries(turns: seq<Segment>): seq<nat> {
    if turns == [] then [] else AllEntries(turns[..|turns| - 1]) + turns[|turns| - 1].entries
  }

  lemma FlushKeeps(r: Reading)
    requires r.buf != FRESH ==> r.hasContent
    ensures AllEntries(Flush(r).turns) + Flush(r).buf.entries == AllEntries(r.turns) + r.buf.entries
    ensures Flush(r).buf == FRESH
  {
    if r.hasContent && r.buf != FRESH {
      assert (r.turns + [r.buf])[..|r.turns|] == r.turns;
    }
  }

  /** What has been read so far holds these entries, and a buffer with something in it is marked so. */
  ghost predicate Conserves(r: Reading, entries: seq<nat>) {
    AllEntries(r.turns) + r.buf.entries == entries && (r.buf != FRESH ==> r.hasContent)
  }

  lemma AppendConserves(r: Reading, k: nat, entries: seq<nat>)
    requires Conserves(r, entries)
    ensures Conserves(r.(hasContent := true, buf := r.buf.(entries := r.buf.entries + [k])), entries + [k])
  {
    assert AllEntries(r.turns) + (r.buf.entries + [k]) == (AllEntries(r.turns) + r.buf.entries) + [k];
  }

  lemma UserConserves(r: Reading, text: string, entries: seq<nat>)
    requires Conserves(r, entries)
    ensures Conserves(Flush(r).(hasContent := true, buf := FRESH.(user := text)), entries)
  {
    FlushKeeps(r);
  }

  lemma ReadOneConserves(log: seq<Ev>, r: Reading, k: nat, entries: seq<nat>)
    requires k < |log| && Conserves(r, entries)
    ensures Conserves(ReadOne(log, r, k), if IsEntry(log, k) then entries + [k] else entries)
  {
    match log[k]
    case User(text) => UserConserves(r, text, entries);
    case Assistant(_) =>
    case Ignored =>
    case _ =>
      if IsEntry(log, k) {
        AppendConserves(r, k, entries);
      }
  }

  lemma {:induction false} ReadConserves(log: seq<Ev>, n: nat)
    requires n <= |log|
    ensures Conserves(Read(log, n), Entries(log, n))
  {
    if n > 0 {
      var r, entries := Read(log, n - 1), Entries(log, n - 1);
      assert Conserves(r, entries) by { ReadConserves(log, n - 1); }
      ReadOneConserves(log, r, n - 1, entries);
    }
  }

  /** For every log: the tool events of the output turns, in order, are exactly the tool records and the orphan
      answers of the log, in log order. Nothing is lost, duplicated or moved. */
  lemma {:induction false} TurnsConserve(log: seq<Ev>)
    ensures AllEntries(Turns(log)) == Entries(log, |log|)
  {
    ReadConserves(log, |log|);
    FlushKeeps(Read(log, |log|));
  }

  lemma {:induction false} EntriesAre(log: seq<Ev>, n: nat)
    requires n <= |log|
    ensures forall k: nat :: k in Entries(log, n) <==> k < n && IsEntry(log, k)
    ensures forall a, b | 0 <= a < b < |Entries(log, n)| :: Entries(log, n)[a] < Entries(log, n)[b]
  {
    if n > 0 {
      EntriesAre(log, n - 1);
      var before := Entries(log, n - 1);
      assert forall a | 0 <= a < |before| :: before[a] in before;
    }
  }

  // ----- answers

  /** A result completes the record it is about exactly when the latest record about its id is a tool record;
      otherwise it becomes one orphan. */
  lemma {:induction false} AnswerGoesToLatest(log: seq<Ev>, j: nat)
    requires j < |log| && IsAnswer(log[j])
    ensures IsOrphan(log, j) <==> !(Last(log, j, log[j].id).Some? && log[Last(log, j, log[j].id).value].Tool?)
    ensures forall i: nat | Completes(log, j, i) ::
              i < j && log[i].id == log[j].id && forall k | i < k < j :: !About(log[k], log[j].id)
  {
    var l := Last(log, j, log[j].id);
    if l.Some? && log[l.value].Tool? {
      assert Completes(log, j, l.value);
    }
  }

  /** A tool record holds an answer exactly when some later record completes it, even if its turn was already
      out; and no record is completed twice. */
  lemma {:induction false} AnsweredExactly(log: seq<Ev>, i: nat, n: nat)
    requires i < n <= |log| && log[i].Tool?
    ensures AnswerTo(log, i, n).Some? <==> exists j :: i < j < n && Completes(log, j, i)
    ensures forall j | i < j < n && Completes(log, j, i) :: AnswerTo(log, i, n) == Some(AnswerOf(log[j]))
    decreases n
  {
    if n > i + 1 {
      AnsweredExactly(log, i, n - 1);
      forall j | i < j < n - 1 && Completes(log, j, i) ensures !Completes(log, n - 1, i) {
        assert About(log[j], log[i].id);
      }
    }
  }

  /** What an output event says: a tool record its name and input and the answer that completed it, marked as an error
      exactly when that was a tool error; an orphan its own content, under the name `unknown`. */
  lemma EntrySays(log: seq<Ev>, k: nat, n: nat)
    requires k < n <= |log| && IsEntry(log, k)
    ensures var v := EntryValue(log, k, n);
      if log[k].Tool? then
        && v.name == log[k].name && v.input == Some(log[k].input)
        && (v.answer == None <==> forall j | k < j < n :: !Completes(log, j, k))
        && forall j | k < j < n && Completes(log, j, k) :: v.answer == Some(Answer(log[j].content, log[j].ToolError?))
      else v == ToolValue("unknown", None, Some(Answer(log[k].content, log[k].ToolError?)))
  {
    if log[k].Tool? {
      AnsweredExactly(log, k, n);
    }
  }

  // ----- when an answer goes to the latest record that is still unanswered

  /** Tool record i has answer j's id and is unanswered when j arrives. */
  predicate Open(log: seq<Ev>, j: nat, i: nat)
    requires i < j < |log| && IsAnswer(log[j])
  {
    log[i].Tool? && log[i].id == log[j].id && AnswerTo(log, i, j) == None
  }

  predicate LatestOpen(log: seq<Ev>, j: nat, i: nat)
    requires i < j < |log| && IsAnswer(log[j])
  {
    Open(log, j, i) && forall k | i < k < j :: !Open(log, j, k)
  }

  /** j completes the latest tool record with its id that is still unanswered, and is an orphan if there is none. */
  predicate GoesToLatestOpen(log: seq<Ev>, j: nat)
    requires j < |log| && IsAnswer(log[j])
  {
    forall i: nat | i < j :: Completes(log, j, i) <==> LatestOpen(log, j, i)
  }

  /** The latest record about j's id is itself an answer. */
  predicate FollowsAnswer(log: seq<Ev>, j: nat)
    requires j < |log| && IsAnswer(log[j])
  {
    var l := Last(log, j, log[j].id);
    l.Some? && IsAnswer(log[l.value])
  }

  /** Tool records i and k have this id and stand next to each other among the records about it. */
  predicate Adjacent(log: seq<Ev>, id: string, i: nat, k: nat)
    requires i < k < |log|
  {
    && log[i].Tool? && log[i].id == id && log[k].Tool? && log[k].id == id
    && forall m | i < m < k :: !About(log[m], id)
  }

  /** Before n, an id was used again before its first use was answered. */
  predicate Reused(log: seq<Ev>, n: nat, id: string)
    requires n <= |log|
  {
    exists i, k | 0 <= i < k < n :: Adjacent(log, id, i, k)
  }

  lemma {:induction false} NextAbout(log: seq<Ev>, id: string, i: nat, n: nat) returns (k: nat)
    requires i < n < |log| && About(log[n], id)
    ensures i < k <= n && About(log[k], id) && forall m | i < m < k :: !About(log[m], id)
    decreases n - i
  {
    if About(log[i + 1], id) {
      k := i + 1;
    } else {
      k := NextAbout(log, id, i + 1, n);
    }
  }

  lemma {:induction false} LastIs(log: seq<Ev>, id: string, i: nat, n: nat)
    requires i < n <= |log| && About(log[i], id) && forall m | i < m < n :: !About(log[m], id)
    ensures Last(log, n, id) == Some(i)
  {
    var l := Last(log, n, id);
    assert l.Some? && l.value >= i;
  }

  /** A reused id leaves its first record open for good. */
  lemma ReusedStaysOpen(log: seq<Ev>, j: nat, i: nat, k: nat)
    requires i < k < j < |log| && IsAnswer(log[j]) && Adjacent(log, log[j].id, i, k)
    ensures Open(log, j, i)
  {
    AnsweredExactly(log, i, j);
    forall m | i < m < j ensures !Completes(log, m, i) {
      assert m > k ==> Last(log, m, log[i].id) != Some(i);
    }
  }

  /** Behind an answer, only a reused id leaves a record open. */
  lemma OpenMeansReused(log: seq<Ev>, j: nat, i: nat)
    requires i < j < |log| && IsAnswer(log[j]) && FollowsAnswer(log, j) && Open(log, j, i)
    ensures Reused(log, j, log[j].id)
  {
    var id := log[j].id;
    var l := Last(log, j, id).value;
    assert i < l;
    var k := NextAbout(log, id, i, l);
    LastIs(log, id, i, k);
    AnsweredExactly(log, i, j);
    assert !Completes(log, k, i);
    assert Adjacent(log, id, i, k);
  }

  lemma {:induction false} SomeLatestOpen(log: seq<Ev>, j: nat, i: nat) returns (k: nat)
    requires i < j < |log| && IsAnswer(log[j]) && Open(log, j, i)
    ensures i <= k < j && LatestOpen(log, j, k)
    decreases j - i
  {
    k := i;
    if m :| i < m < j && Open(log, j, m) {
      k := SomeLatestOpen(log, j, m);
    }
  }

  /** An answer whose latest record is a tool record completes it, and that one is the latest open. */
  lemma {:induction false} LatestToolIsOpen(log: seq<Ev>, j: nat, l: nat)
    requires j < |log| && IsAnswer(log[j]) && Last(log, j, log[j].id) == Some(l) && log[l].Tool?
    ensures LatestOpen(log, j, l) && Completes(log, j, l)
  {
    AnsweredExactly(log, l, j);
    assert forall m | l < m < j :: Completes(log, m, l) ==> About(log[m], log[j].id);
  }

  /** For every log and answer: it goes to the latest record with its id that is still unanswered, and is an orphan
      when there is none, unless the latest record about the id is an answer and the id was reused before. */
  lemma GoesToLatestOpenExactly(log: seq<Ev>, j: nat)
    requires j < |log| && IsAnswer(log[j])
    ensures GoesToLatestOpen(log, j) <==> !(FollowsAnswer(log, j) && Reused(log, j, log[j].id))
    ensures (IsOrphan(log, j) && exists i :: 0 <= i < j && Open(log, j, i)) <==>
              FollowsAnswer(log, j) && Reused(log, j, log[j].id)
  {
    AnswerGoesToLatest(log, j);
    match Last(log, j, log[j].id)
    case None =>
    case Some(l) =>
      if log[l].Tool? {
        LatestToolIsOpen(log, j, l);
      } else {
        BehindAnswer(log, j);
      }
  }

  lemma BehindAnswer(log: seq<Ev>, j: nat)
    requires j < |log| && IsAnswer(log[j]) && FollowsAnswer(log, j)
    ensures IsOrphan(log, j)
    ensures GoesToLatestOpen(log, j) <==> !Reused(log, j, log[j].id)
    ensures (exists i :: 0 <= i < j && Open(log, j, i)) <==> Reused(log, j, log[j].id)
  {
    forall i: nat | i < j ensures Open(log, j, i) ==> Reused(log, j, log[j].id) {
      if Open(log, j, i) {
        OpenMeansReused(log, j, i);
      }
    }
    if Reused(log, j, log[j].id) {
      var i, k :| 0 <= i < k < j && Adjacent(log, log[j].id, i, k);
      ReusedStaysOpen(log, j, i, k);
      var o := SomeLatestOpen(log, j, i);
      assert LatestOpen(log, j, o) && !Completes(log, j, o);
    }
  }

  /** The same id twice: the second record takes the answer, and the next answer is an orphan although the first
      record is still unanswered. */
  lemma FirstOfTwoStaysOpen(id: string, a: string, b: string, c: string, d: string)
    ensures var log := [Tool(id, "t", a), Tool(id, "t", b), ToolResult(id, c), ToolResult(id, d)];
      AnswerTo(log, 0, 4) == None && AnswerTo(log, 1, 4) == Some(Answer(c, false)) && IsOrphan(log, 3)
  {
    var log := [Tool(id, "t", a), Tool(id, "t", b), ToolResult(id, c), ToolResult(id, d)];
    assert Last(log, 1, id) == Some(0) && Last(log, 2, id) == Some(1) && Last(log, 3, id) == Some(2);
    assert AnswerTo(log, 0, 2) == AnswerTo(log, 0, 1) == None;
    assert AnswerTo(log, 0, 3) == None;
    assert AnswerTo(log, 1, 3) == Some(Answer(c, false));
  }
}
