/**
  The turns of an event log, said without reading it: cut the log at its user messages; every stretch that has a user
  text, an assistant text or a tool event is one turn.
 */
module EventTurns {
  import opened EventLog

  // ----- one stretch

  /** The texts of the assistant records at positions lo to hi, in log order. */
  function AssistantTexts(log: seq<Ev>, lo: nat, hi: nat): seq<string>
    requires lo <= hi <= |log|
  {
    if lo == hi then []
    else AssistantTexts(log, lo, hi - 1) + if log[hi - 1].Assistant? then [log[hi - 1].text] else []
  }

  /** The entries at positions lo to hi, in log order. */
  function EntriesIn(log: seq<Ev>, lo: nat, hi: nat): seq<nat>
    requires lo <= hi <= |log|
  {
    if lo == hi then [] else EntriesIn(log, lo, hi - 1) + if IsEntry(log, hi - 1) then [hi - 1] else []
  }

  function DropLeadingEmpty(texts: seq<string>): seq<string> {
    if texts != [] && texts[0] == "" then DropLeadingEmpty(texts[1..]) else texts
  }

  function JoinLines(texts: seq<string>): string {
    if texts == [] then ""
    else if |texts| == 1 then texts[0]
    else JoinLines(texts[..|texts| - 1]) + "\n" + texts[|texts| - 1]
  }

  /** The stretch of positions lo to hi as a turn. */
  function StretchTurn(log: seq<Ev>, lo: nat, hi: nat): Segment
    requires lo < hi <= |log|
  {
    Segment(
      if log[lo].User? then log[lo].text else "",
      JoinLines(DropLeadingEmpty(AssistantTexts(log, lo, hi))),
      EntriesIn(log, lo, hi))
  }

  predicate SaysSomething(turn: Segment) {
    turn.user != "" || turn.assistant != "" || turn.entries != []
  }

  // ----- all stretches

  /** The first user message from position i on, or the end of the log. */
  function NextUser(log: seq<Ev>, i: nat): (k: nat)
    requires i <= |log|
    ensures i <= k <= |log| && (k < |log| ==> log[k].User?) && forall j | i <= j < k :: !log[j].User?
    decreases |log| - i
  {
    if i == |log| || log[i].User? then i else NextUser(log, i + 1)
  }

  /** The turns of the stretches from position lo on. */
  function TurnsFrom(log: seq<Ev>, lo: nat): seq<Segment>
    requires lo <= |log|
    decreases |log| - lo
  {
    if lo == |log| then []
    else
      var hi := NextUser(log, lo + 1);
      var turn := StretchTurn(log, lo, hi);
      (if SaysSomething(turn) then [turn] else []) + TurnsFrom(log, hi)
  }

  // ----- reading a stretch

  lemma {:induction false} JoinNonEmpty(texts: seq<string>)
    requires texts != [] && texts[0] != ""
    ensures JoinLines(texts) != ""
  {
    if |texts| > 1 {
      JoinNonEmpty(texts[..|texts| - 1]);
    }
  }

  lemma {:induction false} DropNext(texts: seq<string>, text: string)
    ensures DropLeadingEmpty(texts + [text]) ==
              if DropLeadingEmpty(texts) == [] && text == "" then [] else DropLeadingEmpty(texts) + [text]
    ensures DropLeadingEmpty(texts) != [] ==> DropLeadingEmpty(texts)[0] != ""
  {
    if texts == [] {
      assert texts + [text] == [text] && [text][1..] == [];
    } else if texts[0] == "" {
      assert (texts + [text])[1..] == texts[1..] + [text];
      DropNext(texts[1..], text);
    }
  }

  /** One more assistant text is appended as the reader appends it. */
  lemma {:induction false} ExtendJoins(texts: seq<string>, text: string)
    ensures JoinLines(DropLeadingEmpty(texts + [text])) == Extend(JoinLines(DropLeadingEmpty(texts)), text)
  {
    var kept := DropLeadingEmpty(texts);
    DropNext(texts, text);
    if kept != [] {
      JoinNonEmpty(kept);
      assert (kept + [text])[..|kept|] == kept;
    } else {
      assert kept + [text] == [text];
    }
  }

  /** Within a stretch the buffer is the stretch so far. */
  ghost predicate MidStretch(log: seq<Ev>, lo: nat, m: nat)
    requires lo < m <= |log|
  {
    var r := Read(log, m);
    && r.turns == Flush(Read(log, lo)).turns
    && r.buf == StretchTurn(log, lo, m)
    && (r.buf != FRESH ==> r.hasContent)
  }

  lemma {:induction false} StretchBegins(log: seq<Ev>, lo: nat)
    requires lo < |log| && (lo == 0 || log[lo].User?)
    ensures MidStretch(log, lo, lo + 1)
  {
    ReadConserves(log, lo);
    FlushKeeps(Read(log, lo));
    assert AssistantTexts(log, lo, lo) == [] && EntriesIn(log, lo, lo) == [];
    if log[lo].Assistant? {
      assert AssistantTexts(log, lo, lo + 1) == [] + [log[lo].text];
      ExtendJoins([], log[lo].text);
    }
  }

  /** One more record of the stretch: an assistant text joins the others, an entry the other entries. */
  lemma TurnNext(log: seq<Ev>, lo: nat, m: nat)
    requires lo < m < |log|
    ensures var turn := StretchTurn(log, lo, m);
      StretchTurn(log, lo, m + 1) == Segment(
        turn.user,
        if log[m].Assistant? then Extend(turn.assistant, log[m].text) else turn.assistant,
        if IsEntry(log, m) then turn.entries + [m] else turn.entries)
  {
    var texts, entries := AssistantTexts(log, lo, m), EntriesIn(log, lo, m);
    assert AssistantTexts(log, lo, m + 1) == if log[m].Assistant? then texts + [log[m].text] else texts;
    assert EntriesIn(log, lo, m + 1) == if IsEntry(log, m) then entries + [m] else entries;
    if log[m].Assistant? {
      ExtendJoins(texts, log[m].text);
    }
  }

  lemma {:induction false} StretchGoesOn(log: seq<Ev>, lo: nat, m: nat)
    requires lo < m < |log| && MidStretch(log, lo, m) && !log[m].User?
    ensures MidStretch(log, lo, m + 1)
  {
    TurnNext(log, lo, m);
    var r := Read(log, m);
    assert Read(log, m + 1) == ReadOne(log, r, m);
    assert log[m].Assistant? ==> !IsEntry(log, m);
  }

  lemma {:induction false} StretchIsRead(log: seq<Ev>, lo: nat, m: nat)
    requires lo < m <= |log| && (lo == 0 || log[lo].User?) && forall j | lo < j < m :: !log[j].User?
    ensures MidStretch(log, lo, m)
    decreases m
  {
    if m == lo + 1 {
      StretchBegins(log, lo);
    } else {
      StretchIsRead(log, lo, m - 1);
      StretchGoesOn(log, lo, m - 1);
    }
  }

  lemma FlushSays(r: Reading)
    requires r.buf != FRESH ==> r.hasContent
    ensures Flush(r).turns == r.turns + if SaysSomething(r.buf) then [r.buf] else []
  {
  }

  lemma {:induction false} StretchEnds(log: seq<Ev>, lo: nat, hi: nat)
    requires lo < hi <= |log| && MidStretch(log, lo, hi)
    ensures var turn := StretchTurn(log, lo, hi);
      Flush(Read(log, hi)).turns == Flush(Read(log, lo)).turns + if SaysSomething(turn) then [turn] else []
  {
    FlushSays(Read(log, hi));
  }

  lemma {:induction false} StretchGoesOut(log: seq<Ev>, lo: nat) returns (turn: seq<Segment>)
    requires lo < |log| && (lo == 0 || log[lo].User?)
    ensures TurnsFrom(log, lo) == turn + TurnsFrom(log, NextUser(log, lo + 1))
    ensures Flush(Read(log, NextUser(log, lo + 1))).turns == Flush(Read(log, lo)).turns + turn
  {
    var hi := NextUser(log, lo + 1);
    StretchIsRead(log, lo, hi);
    StretchEnds(log, lo, hi);
    turn := if SaysSomething(StretchTurn(log, lo, hi)) then [StretchTurn(log, lo, hi)] else [];
  }

  lemma Regroup(a: seq<Segment>, b: seq<Segment>, c: seq<Segment>)
    ensures (a + b) + c == a + (b + c)
    ensures a + [] == a == [] + a
  {
  }

  lemma {:induction false} RestIsRead(log: seq<Ev>, lo: nat)
    requires lo <= |log| && (lo == 0 || lo == |log| || log[lo].User?)
    ensures Turns(log) == Flush(Read(log, lo)).turns + TurnsFrom(log, lo)
    decreases |log| - lo
  {
    if lo == |log| {
      Regroup(Turns(log), [], []);
    } else {
      var hi := NextUser(log, lo + 1);
      var turn := StretchGoesOut(log, lo);
      RestIsRead(log, hi);
      Regroup(Flush(Read(log, lo)).turns, turn, TurnsFrom(log, hi));
    }
  }

  lemma {:induction false} NothingRead(log: seq<Ev>)
    ensures Flush(Read(log, 0)).turns == []
  {
  }

  /** For every log, the turns read are exactly those of its stretches, in order: one for every stretch between user
      messages that says something, with its user text, its assistant texts one per line (leading empty ones dropped)
      and its tool events. */
  lemma {:induction false} TurnsAreStretches(log: seq<Ev>)
    ensures Turns(log) == TurnsFrom(log, 0)
  {
    var rest := TurnsFrom(log, 0);
    assert Turns(log) == [] + rest by {
      RestIsRead(log, 0);
      NothingRead(log);
    }
    Regroup(rest, [], []);
  }
}
