/** Merging a batch of results into the ranked result file. */
module ResultMerge {
  import opened Ordering
  import opened Results
  import opened Options

  // ----- the streaming merge, as a function of file and batch -----

  /** The merge's progress: the first batch record not yet passed, which batch
      records are accounted for, and what has been written. */
  datatype State = State(cursor: nat, emitted: seq<bool>, out: seq<Result>)

  function EmitDelta(delta: seq<Result>, st: State, idx: nat): (r: State)
    requires idx < |delta| == |st.emitted|
    ensures r.cursor == st.cursor && |r.emitted| == |delta|
  {
    if st.emitted[idx] then st else st.(emitted := st.emitted[idx := true], out := st.out + [delta[idx]])
  }

  /** Emits batch records while they score strictly above the given score. */
  function DrainAbove(delta: seq<Result>, st: State, score: real): (r: State)
    requires |delta| == |st.emitted| && st.cursor <= |delta|
    ensures |r.emitted| == |delta| && r.cursor <= |delta|
    decreases |delta| - st.cursor
  {
    if st.cursor < |delta| && delta[st.cursor].score > score then
      DrainAbove(delta, EmitDelta(delta, st, st.cursor).(cursor := st.cursor + 1), score)
    else st
  }

  /** Where the batch holds a key. */
  function Find(delta: seq<Result>, key: string): (r: Option<nat>)
    ensures r.Some? ==> r.value < |delta| && delta[r.value].key == key
    ensures r.None? ==> forall i :: 0 <= i < |delta| ==> delta[i].key != key
  {
    if delta == [] then None
    else if delta[|delta| - 1].key == key then Some(|delta| - 1)
    else Find(delta[..|delta| - 1], key)
  }

  /** One record of the existing file. */
  function Absorb(delta: seq<Result>, st: State, e: Result): (r: State)
    requires |delta| == |st.emitted| && st.cursor <= |delta|
    ensures |r.emitted| == |delta| && r.cursor <= |delta|
  {
    var s := DrainAbove(delta, st, e.score);
    match Find(delta, e.key)
    case None => s.(out := s.out + [e])
    case Some(idx) =>
      if delta[idx].score > e.score then EmitDelta(delta, s, idx)
      else s.(emitted := s.emitted[idx := true], out := s.out + [e])
  }

  function Start(delta: seq<Result>): State {
    State(0, seq(|delta|, i => false), [])
  }

  function AbsorbAll(existing: seq<Result>, delta: seq<Result>): (r: State)
    ensures |r.emitted| == |delta| && r.cursor <= |delta|
  {
    if existing == [] then Start(delta)
    else Absorb(delta, AbsorbAll(existing[..|existing| - 1], delta), existing[|existing| - 1])
  }

  function EmitRest(delta: seq<Result>, st: State, i: nat): State
    requires |delta| == |st.emitted| && i <= |delta|
    decreases |delta| - i
  {
    if i < |delta| then EmitRest(delta, EmitDelta(delta, st, i), i + 1) else st
  }

  function Merge(existing: seq<Result>, delta: seq<Result>): seq<Result> {
    var st := AbsorbAll(existing, delta);
    EmitRest(delta, st, st.cursor).out
  }

  // ----- the same loop, as the program runs it -----

  /** The batch indices ordered by key, for the lookups. */
  function KeyAt(delta: seq<Result>, i: nat): string {
    if i < |delta| then delta[i].key else ""
  }

  /** order lists every batch index once, by ascending key. */
  ghost predicate OrdersKeys(delta: seq<Result>, order: seq<nat>) {
    && |order| == |delta|
    && multiset(order) == multiset(seq(|delta|, i => i))
    && forall i, j :: 0 <= i < j < |order| ==> StrCmp(KeyAt(delta, order[i]), KeyAt(delta, order[j])) <= 0
  }

  method BuildKeyOrder(delta: seq<Result>) returns (order: array<nat>)
    ensures fresh(order) && OrdersKeys(delta, order[..])
  {
    order := new nat[|delta|](i => i);
    assert order[..] == seq(|delta|, i => i);
    var cmp := (a: nat, b: nat) => StrCmp(KeyAt(delta, a), KeyAt(delta, b));
    KeyOrders(delta, cmp);
    SortFunc(order, cmp);
  }

  lemma KeyOrders(delta: seq<Result>, cmp: (nat, nat) -> int)
    requires forall a: nat, b: nat :: cmp(a, b) == StrCmp(KeyAt(delta, a), KeyAt(delta, b))
    ensures TotalPreorder(cmp)
  {
    forall a: nat, b: nat ensures cmp(a, b) == -cmp(b, a) {
      StrCmpFlip(KeyAt(delta, a), KeyAt(delta, b));
    }
    forall a: nat, b: nat, c: nat | cmp(a, b) <= 0 && cmp(b, c) <= 0 ensures cmp(a, c) <= 0 {
      StrCmpTrans(KeyAt(delta, a), KeyAt(delta, b), KeyAt(delta, c));
    }
  }

  /** Binary search through the key order. */
  method Holds(delta: seq<Result>, order: array<nat>, key: string) returns (r: Option<nat>)
    requires KeyUnique(delta) && OrdersKeys(delta, order[..])
    ensures r == Find(delta, key)
  {
    forall p | 0 <= p < order.Length ensures order[p] < |delta| {
      InOrder(|delta|, order[..], order[p]);
    }
    var i, j := 0, order.Length;
    while i < j
      invariant 0 <= i <= j <= order.Length
      invariant forall p :: 0 <= p < i ==> StrCmp(KeyAt(delta, order[p]), key) < 0
      invariant forall p :: j <= p < order.Length ==> StrCmp(KeyAt(delta, order[p]), key) >= 0
    {
      var h := (i + j) / 2;
      if StrCmp(KeyAt(delta, order[h]), key) < 0 {
        forall p | 0 <= p <= h ensures StrCmp(KeyAt(delta, order[p]), key) < 0 {
          StrCmpFlip(KeyAt(delta, order[h]), KeyAt(delta, order[h]));
          StrCmpBelow(KeyAt(delta, order[p]), KeyAt(delta, order[h]), key);
        }
        i := h + 1;
      } else {
        forall p | h <= p < order.Length ensures StrCmp(KeyAt(delta, order[p]), key) >= 0 {
          StrCmpFlip(KeyAt(delta, order[h]), KeyAt(delta, order[h]));
          StrCmpBelow(KeyAt(delta, order[h]), KeyAt(delta, order[p]), key);
        }
        j := h;
      }
    }
    if i < order.Length && StrCmp(KeyAt(delta, order[i]), key) == 0 {
      StrCmpFlip(KeyAt(delta, order[i]), key);
      r := Some(order[i]);
    } else {
      forall p | 0 <= p < order.Length ensures KeyAt(delta, order[p]) != key {
        StrCmpFlip(KeyAt(delta, order[p]), key);
        if i < p {
          StrCmpBelow(KeyAt(delta, order[i]), KeyAt(delta, order[p]), key);
        }
      }
      r := None;
    }
    FindByOrder(delta, order[..], key, r);
  }

  lemma InOrder(n: nat, order: seq<nat>, k: nat)
    requires multiset(order) == multiset(seq(n, i => i))
    ensures k in order <==> k < n
  {
    var id := seq(n, i => i);
    assert k in order <==> k in multiset(order);
    assert k in id <==> k in multiset(id);
    if k < n {
      assert id[k] == k;
    }
  }

  lemma FindByOrder(delta: seq<Result>, order: seq<nat>, key: string, r: Option<nat>)
    requires KeyUnique(delta) && multiset(order) == multiset(seq(|delta|, i => i))
    requires r.Some? ==> r.value in order && KeyAt(delta, r.value) == key
    requires r.None? ==> forall p :: 0 <= p < |order| ==> KeyAt(delta, order[p]) != key
    ensures r == Find(delta, key)
  {
    if r.Some? {
      InOrder(|delta|, order, r.value);
    }
    if Find(delta, key).Some? {
      InOrder(|delta|, order, Find(delta, key).value);
    }
  }

  /** Whether the replacement branch finds its batch record already out. */
  ghost predicate AlreadyOut(delta: seq<Result>, st: State, e: Result)
    requires |delta| == |st.emitted| && st.cursor <= |delta|
  {
    var held := Find(delta, e.key);
    held.Some? && delta[held.value].score > e.score ==> DrainAbove(delta, st, e.score).emitted[held.value]
  }

  /** The callback run on each existing record; late counts what the
      replacement branch itself writes. */
  method AbsorbRecord(delta: seq<Result>, order: array<nat>, emitted: array<bool>, cursor0: nat, out0: seq<Result>,
                      e: Result)
    returns (cursor: nat, out: seq<Result>, ghost late: int)
    requires KeyUnique(delta) && OrdersKeys(delta, order[..]) && emitted.Length == |delta| && cursor0 <= |delta|
    modifies emitted
    ensures State(cursor, emitted[..], out) == Absorb(delta, State(cursor0, old(emitted[..]), out0), e)
    ensures AlreadyOut(delta, State(cursor0, old(emitted[..]), out0), e) ==> late == 0
  {
    hide KeyUnique, OrdersKeys, Find;
    cursor, out, late := cursor0, out0, 0;
    ghost var drained := DrainAbove(delta, State(cursor, emitted[..], out), e.score);
    while cursor < |delta| && delta[cursor].score > e.score
      invariant cursor <= |delta|
      invariant drained == DrainAbove(delta, State(cursor, emitted[..], out), e.score)
      decreases |delta| - cursor
    {
      out := EmitDeltaRecord(delta, emitted, cursor, out);
      cursor := cursor + 1;
    }
    var held := Holds(delta, order, e.key);
    if held.Some? && delta[held.value].score > e.score {
      ghost var before := |out|;
      out := EmitDeltaRecord(delta, emitted, held.value, out);
      late := |out| - before;
    } else {
      if held.Some? {
        emitted[held.value] := true;
      }
      out := out + [e];
    }
  }

  /** Streams the existing records past the batch. The replacement branch never
      writes, whatever the file: its batch record is out by then. */
  method MergeWithExisting(existing: seq<Result>, delta: seq<Result>) returns (out: seq<Result>, ghost late: int)
    requires Ranked(delta)
    ensures out == Merge(existing, delta) && late == 0
  {
    hide KeyUnique, ScoreDescending, Progress, Reached, OrdersKeys, Find, Absorb, DrainAbove, EmitDelta, AlreadyOut;
    var order := BuildKeyOrder(delta);
    ghost var keys := order[..];
    var emitted := new bool[|delta|](i => false);
    var cursor: nat := 0;
    out, late := [], 0;
    assert emitted[..] == Start(delta).emitted;
    ProgressStart(existing, delta);
    var x := 0;
    while x < |existing|
      invariant x <= |existing| && cursor <= |delta|
      invariant State(cursor, emitted[..], out) == AbsorbAll(existing[..x], delta)
      invariant order[..] == keys
      invariant Progress(existing, delta, x, State(cursor, emitted[..], out)) && Reached(existing, delta, x, x, cursor)
      invariant late == 0
    {
      assert existing[..x + 1][..x] == existing[..x];
      AbsorbProgress(existing, delta, x, State(cursor, emitted[..], out));
      ghost var wrote;
      cursor, out, wrote := AbsorbRecord(delta, order, emitted, cursor, out, existing[x]);
      late := late + wrote;
      x := x + 1;
    }
    assert existing[..x] == existing;
    ghost var st := State(cursor, emitted[..], out);
    var i := cursor;
    while i < |delta|
      invariant cursor <= i <= |delta|
      invariant EmitRest(delta, st, cursor).out == EmitRest(delta, State(cursor, emitted[..], out), i).out
    {
      out := EmitDeltaRecord(delta, emitted, i, out);
      i := i + 1;
    }
  }

  method EmitDeltaRecord(delta: seq<Result>, emitted: array<bool>, idx: nat, out: seq<Result>) returns (r: seq<Result>)
    requires idx < |delta| == emitted.Length
    modifies emitted
    ensures forall c :: EmitDelta(delta, State(c, old(emitted[..]), out), idx) == State(c, emitted[..], r)
  {
    r := out;
    if !emitted[idx] {
      emitted[idx] := true;
      r := out + [delta[idx]];
    } else {
      assert emitted[..][idx];
    }
  }

  // ----- what the merge computes, for any existing file -----

  /** No batch record beats this existing one. */
  ghost predicate Kept(delta: seq<Result>, e: Result) {
    forall i :: 0 <= i < |delta| && delta[i].key == e.key ==> delta[i].score <= e.score
  }

  /** Among the first x existing records one scores below. */
  ghost predicate Undercut(existing: seq<Result>, x: nat, score: real)
    requires x <= |existing|
  {
    exists q :: 0 <= q < x && existing[q].score < score
  }

  /** The file reaches a score below d's before, or where, it holds d's key. */
  ghost predicate Unmet(existing: seq<Result>, d: Result) {
    forall p :: 0 <= p < |existing| && existing[p].key == d.key ==> Undercut(existing, p + 1, d.score)
  }

  ghost predicate Seen(existing: seq<Result>, x: nat, key: string)
    requires x <= |existing|
  {
    exists p :: 0 <= p < x && existing[p].key == key
  }

  /** A batch record is accounted for once passed or met by key. */
  ghost predicate Marked(existing: seq<Result>, delta: seq<Result>, x: nat, cursor: nat, emitted: seq<bool>)
    requires x <= |existing| && |emitted| == |delta|
  {
    forall i :: 0 <= i < |delta| ==> (emitted[i] <==> i < cursor || Seen(existing, x, delta[i].key))
  }

  /** The cursor has passed the batch records that x existing records undercut,
      and only such as y of them do. */
  ghost predicate Reached(existing: seq<Result>, delta: seq<Result>, x: nat, y: nat, cursor: nat)
    requires x <= y <= |existing|
  {
    && (forall i :: 0 <= i < cursor && i < |delta| ==> Undercut(existing, y, delta[i].score))
    && (forall i :: 0 <= i < |delta| && Undercut(existing, x, delta[i].score) ==> i < cursor)
  }

  ghost predicate Written(existing: seq<Result>, delta: seq<Result>, x: nat, cursor: nat, out: seq<Result>)
    requires x <= |existing| && cursor <= |delta|
  {
    forall r :: r in out <==>
      (r in existing[..x] && Kept(delta, r)) || (r in delta[..cursor] && Unmet(existing, r))
  }

  /** A key would come twice: its file record stays, and its batch record was
      passed at a lower score further up. */
  ghost predicate ClashAt(existing: seq<Result>, delta: seq<Result>, p: nat)
    requires p < |existing|
  {
    exists i :: 0 <= i < |delta| && delta[i].key == existing[p].key && delta[i].score <= existing[p].score &&
                Undercut(existing, p, delta[i].score)
  }

  ghost predicate Clash(existing: seq<Result>, delta: seq<Result>, x: nat)
    requires x <= |existing|
  {
    exists p :: 0 <= p < x && ClashAt(existing, delta, p)
  }

  /** How a written list may order two records: by score, and on a tie file
      records first, then by key. */
  ghost predicate MayPrecede(existing: seq<Result>, a: Result, b: Result) {
    a.score > b.score || (a.score == b.score && (a in existing || CmpResult(a, b) < 0))
  }

  ghost predicate Ordered(existing: seq<Result>, out: seq<Result>) {
    forall i, j :: 0 <= i < j < |out| ==> MayPrecede(existing, out[i], out[j])
  }

  /** A sorted batch without repeated keys. */
  ghost predicate BatchOrder(delta: seq<Result>) {
    forall i, j :: 0 <= i < j < |delta| ==> CmpResult(delta[i], delta[j]) < 0
  }

  /** What has been written once x existing records are absorbed, and, as far
      as the file allows, its keys and its order. */
  ghost predicate Progress(existing: seq<Result>, delta: seq<Result>, x: nat, st: State) {
    && x <= |existing| && |st.emitted| == |delta| && st.cursor <= |delta|
    && Marked(existing, delta, x, st.cursor, st.emitted)
    && Written(existing, delta, x, st.cursor, st.out)
    && (KeyUnique(existing) ==> (KeyUnique(st.out) <==> !Clash(existing, delta, x)))
    && (ScoreDescending(existing) ==> ScoreDescending(st.out))
    && (ScoreDescending(existing) && BatchOrder(delta) ==> Ordered(existing, st.out))
  }

  lemma ProgressStart(existing: seq<Result>, delta: seq<Result>)
    ensures Progress(existing, delta, 0, Start(delta)) && Reached(existing, delta, 0, 0, 0)
  {
  }

  // ----- appending one record -----

  lemma UniqueAppend(out: seq<Result>, r: Result)
    ensures KeyUnique(out + [r]) <==> KeyUnique(out) && forall o :: o in out ==> o.key != r.key
  {
    var s := out + [r];
    if KeyUnique(s) {
      forall i, j | 0 <= i < j < |out| ensures out[i].key != out[j].key {
        assert s[i] == out[i] && s[j] == out[j];
      }
      forall o | o in out ensures o.key != r.key {
        var i :| 0 <= i < |out| && out[i] == o;
        assert s[i] == o && s[|out|] == r;
      }
    }
  }

  lemma DescendingAppend(out: seq<Result>, r: Result)
    requires ScoreDescending(out) && forall o :: o in out ==> o.score >= r.score
    ensures ScoreDescending(out + [r])
  {
  }

  lemma OrderedAppend(existing: seq<Result>, out: seq<Result>, r: Result)
    requires Ordered(existing, out) && forall o :: o in out ==> MayPrecede(existing, o, r)
    ensures Ordered(existing, out + [r])
  {
  }

  lemma RankedAppend(out: seq<Result>, r: Result)
    requires Ranked(out) && forall o :: o in out ==> o.score >= r.score && o.key != r.key
    ensures Ranked(out + [r])
  {
    UniqueAppend(out, r);
    DescendingAppend(out, r);
  }

  // ----- passing a batch record -----

  /** Its place in the list: before a lower file record, or at the end. */
  ghost predicate Passable(existing: seq<Result>, delta: seq<Result>, x: nat, c: nat)
    requires x <= |existing| && c < |delta|
  {
    !Undercut(existing, x, delta[c].score) && (x == |existing| || existing[x].score < delta[c].score)
  }

  lemma UndercutMore(existing: seq<Result>, x: nat, y: nat, score: real)
    requires x <= y <= |existing|
    ensures Undercut(existing, x, score) ==> Undercut(existing, y, score)
  {
    if Undercut(existing, x, score) {
      var q :| 0 <= q < x && existing[q].score < score;
      assert q < y;
    }
  }

  /** It is written exactly if its key has not come up yet. */
  lemma PassUnmet(existing: seq<Result>, delta: seq<Result>, x: nat, c: nat)
    requires x <= |existing| && c < |delta| && Passable(existing, delta, x, c)
    ensures Unmet(existing, delta[c]) <==> !Seen(existing, x, delta[c].key)
  {
    var d := delta[c];
    if Seen(existing, x, d.key) {
      var p :| 0 <= p < x && existing[p].key == d.key;
      UndercutMore(existing, p + 1, x, d.score);
    } else {
      forall p | 0 <= p < |existing| && existing[p].key == d.key ensures Undercut(existing, p + 1, d.score) {
        assert p >= x;
        assert existing[x].score < d.score;
      }
    }
  }

  lemma PassWritten(existing: seq<Result>, delta: seq<Result>, x: nat, c: nat, out: seq<Result>)
    requires x <= |existing| && c < |delta| && Written(existing, delta, x, c, out)
    ensures Written(existing, delta, x, c + 1, if Unmet(existing, delta[c]) then out + [delta[c]] else out)
  {
    hide Unmet, Kept;
    assert delta[..c + 1] == delta[..c] + [delta[c]];
  }

  lemma PassMarked(existing: seq<Result>, delta: seq<Result>, x: nat, c: nat, emitted: seq<bool>)
    requires x <= |existing| && |emitted| == |delta| && c < |delta| && Marked(existing, delta, x, c, emitted)
    ensures Marked(existing, delta, x, c + 1, emitted[c := true])
  {
    hide Seen;
  }

  /** A written record is a file record already read or a batch record passed. */
  lemma Origin(existing: seq<Result>, delta: seq<Result>, x: nat, cursor: nat, out: seq<Result>, o: Result)
    requires x <= |existing| && cursor <= |delta| && Written(existing, delta, x, cursor, out) && o in out
    ensures (exists p :: 0 <= p < x && existing[p] == o) || (exists i :: 0 <= i < cursor && delta[i] == o)
  {
    hide Kept, Unmet;
    if o in existing[..x] {
      var p :| 0 <= p < x && existing[..x][p] == o;
      assert existing[p] == o;
    } else {
      var i :| 0 <= i < cursor && delta[..cursor][i] == o;
      assert delta[i] == o;
    }
  }

  /** Everything written before a passed record has another key, scores at
      least as high, and may stand before it. */
  lemma PassAbove(existing: seq<Result>, delta: seq<Result>, x: nat, c: nat, out: seq<Result>, o: Result)
    requires x <= |existing| && c < |delta| && Ranked(delta) && Passable(existing, delta, x, c)
    requires Written(existing, delta, x, c, out) && o in out
    ensures !Seen(existing, x, delta[c].key) ==> o.key != delta[c].key
    ensures o.score >= delta[c].score
    ensures BatchOrder(delta) ==> MayPrecede(existing, o, delta[c])
  {
    Origin(existing, delta, x, c, out, o);
    hide Written;
    if p :| 0 <= p < x && existing[p] == o {
      assert !Undercut(existing, x, delta[c].score);
      assert existing[p].score >= delta[c].score;
    } else {
      var i :| 0 <= i < c && delta[i] == o;
      assert delta[i].score >= delta[c].score && delta[i].key != delta[c].key;
    }
  }

  lemma PassProgress(existing: seq<Result>, delta: seq<Result>, x: nat, st: State)
    requires Ranked(delta) && Progress(existing, delta, x, st) && st.cursor < |delta|
    requires Passable(existing, delta, x, st.cursor)
    ensures Progress(existing, delta, x, EmitDelta(delta, st, st.cursor).(cursor := st.cursor + 1))
  {
    var c, out := st.cursor, st.out;
    var d := delta[c];
    PassUnmet(existing, delta, x, c);
    PassWritten(existing, delta, x, c, out);
    PassMarked(existing, delta, x, c, st.emitted);
    assert st.emitted[c] <==> Seen(existing, x, d.key);
    if st.emitted[c] {
      assert st.emitted[c := true] == st.emitted;
    } else {
      forall o | o in out
        ensures o.key != d.key && o.score >= d.score && (BatchOrder(delta) ==> MayPrecede(existing, o, d))
      {
        PassAbove(existing, delta, x, c, out, o);
      }
      hide Marked, Written, Unmet, Clash, KeyUnique, ScoreDescending, Ordered, BatchOrder, Passable, MayPrecede, Seen;
      PassAppended(existing, delta, out, d);
    }
  }

  lemma PassAppended(existing: seq<Result>, delta: seq<Result>, out: seq<Result>, d: Result)
    requires forall o :: o in out ==>
            o.key != d.key && o.score >= d.score && (BatchOrder(delta) ==> MayPrecede(existing, o, d))
    ensures KeyUnique(out + [d]) <==> KeyUnique(out)
    ensures ScoreDescending(out) ==> ScoreDescending(out + [d])
    ensures BatchOrder(delta) && Ordered(existing, out) ==> Ordered(existing, out + [d])
  {
    hide KeyUnique, ScoreDescending, Ordered, BatchOrder, MayPrecede;
    UniqueAppend(out, d);
    if ScoreDescending(out) {
      DescendingAppend(out, d);
    }
    if BatchOrder(delta) && Ordered(existing, out) {
      OrderedAppend(existing, out, d);
    }
  }

  /** What the drain in front of existing record x leaves. */
  lemma DrainProgress(existing: seq<Result>, delta: seq<Result>, x: nat, st: State)
    requires Ranked(delta) && Progress(existing, delta, x, st) && x < |existing|
    requires |delta| == |st.emitted| && st.cursor <= |delta| && Reached(existing, delta, x, x + 1, st.cursor)
    ensures var r := DrainAbove(delta, st, existing[x].score);
            && Progress(existing, delta, x, r) && Reached(existing, delta, x, x + 1, r.cursor)
            && (r.cursor < |delta| ==> delta[r.cursor].score <= existing[x].score)
    decreases |delta| - st.cursor
  {
    hide Ranked, Progress, EmitDelta;
    var c := st.cursor;
    if c < |delta| && delta[c].score > existing[x].score {
      assert Undercut(existing, x + 1, delta[c].score);
      assert Passable(existing, delta, x, c);
      hide Undercut, Passable;
      PassProgress(existing, delta, x, st);
      DrainProgress(existing, delta, x, EmitDelta(delta, st, c).(cursor := c + 1));
    }
  }

  // ----- absorbing a file record -----

  lemma {:induction false} FindIsIt(delta: seq<Result>, key: string, i: nat)
    requires KeyUnique(delta) && i < |delta| && delta[i].key == key
    ensures Find(delta, key) == Some(i)
  {
  }

  lemma SeenStep(existing: seq<Result>, delta: seq<Result>, x: nat, i: nat)
    requires KeyUnique(delta) && x < |existing| && i < |delta|
    ensures Seen(existing, x + 1, delta[i].key) <==>
            Seen(existing, x, delta[i].key) || Find(delta, existing[x].key) == Some(i)
  {
    if delta[i].key == existing[x].key {
      FindIsIt(delta, existing[x].key, i);
      assert Seen(existing, x + 1, delta[i].key);
    }
  }

  lemma MarkedStep(existing: seq<Result>, delta: seq<Result>, x: nat, cursor: nat, emitted: seq<bool>)
    requires KeyUnique(delta) && x < |existing| && |emitted| == |delta| && Marked(existing, delta, x, cursor, emitted)
    ensures var held := Find(delta, existing[x].key);
            Marked(existing, delta, x + 1, cursor, if held.Some? then emitted[held.value := true] else emitted)
  {
    hide Seen, Find;
    forall i | 0 <= i < |delta|
      ensures Seen(existing, x + 1, delta[i].key) <==>
              Seen(existing, x, delta[i].key) || Find(delta, existing[x].key) == Some(i)
    {
      SeenStep(existing, delta, x, i);
    }
  }

  lemma WrittenStep(existing: seq<Result>, delta: seq<Result>, x: nat, cursor: nat, out: seq<Result>)
    requires x < |existing| && cursor <= |delta| && Written(existing, delta, x, cursor, out)
    ensures Written(existing, delta, x + 1, cursor, if Kept(delta, existing[x]) then out + [existing[x]] else out)
  {
    hide Kept, Unmet;
    assert existing[..x + 1] == existing[..x] + [existing[x]];
  }

  lemma PastCursor(delta: seq<Result>, cursor: nat, idx: nat, score: real)
    requires ScoreDescending(delta) && idx < |delta|
    requires cursor < |delta| ==> delta[cursor].score <= score
    ensures delta[idx].score > score ==> idx < cursor
  {
    assert cursor < idx ==> delta[cursor].score >= delta[idx].score;
  }

  lemma ReachedStep(existing: seq<Result>, delta: seq<Result>, x: nat, cursor: nat)
    requires ScoreDescending(delta) && x < |existing| && Reached(existing, delta, x, x + 1, cursor)
    requires cursor < |delta| ==> delta[cursor].score <= existing[x].score
    ensures Reached(existing, delta, x + 1, x + 1, cursor)
  {
    forall i | 0 <= i < |delta| && Undercut(existing, x + 1, delta[i].score) ensures i < cursor {
      var q :| 0 <= q < x + 1 && existing[q].score < delta[i].score;
      if q < x {
        assert Undercut(existing, x, delta[i].score);
      } else {
        PastCursor(delta, cursor, i, existing[x].score);
      }
    }
  }

  lemma KeptByFind(delta: seq<Result>, e: Result)
    requires KeyUnique(delta)
    ensures var held := Find(delta, e.key); Kept(delta, e) <==> held.None? || delta[held.value].score <= e.score
  {
    forall i | 0 <= i < |delta| && delta[i].key == e.key ensures Find(delta, e.key) == Some(i) {
      FindIsIt(delta, e.key, i);
    }
  }

  lemma ClashStep(existing: seq<Result>, delta: seq<Result>, x: nat)
    requires x < |existing|
    ensures Clash(existing, delta, x + 1) <==> Clash(existing, delta, x) || ClashAt(existing, delta, x)
  {
    hide ClashAt;
    if Clash(existing, delta, x) {
      var p :| 0 <= p < x && ClashAt(existing, delta, p);
      assert ClashAt(existing, delta, p) && p < x + 1;
    }
    if ClashAt(existing, delta, x) {
      assert Clash(existing, delta, x + 1);
    }
  }

  /** A replaced record makes no clash. */
  lemma ReplacedNoClash(existing: seq<Result>, delta: seq<Result>, x: nat)
    requires x < |existing| && KeyUnique(delta) && !Kept(delta, existing[x])
    ensures !ClashAt(existing, delta, x)
  {
    var i :| 0 <= i < |delta| && delta[i].key == existing[x].key && delta[i].score > existing[x].score;
  }

  /** A kept record repeats a written key exactly if it makes a clash. */
  lemma KeptClash(existing: seq<Result>, delta: seq<Result>, x: nat, cursor: nat, out: seq<Result>)
    requires x < |existing| && cursor <= |delta| && KeyUnique(existing) && KeyUnique(delta) && Kept(delta, existing[x])
    requires Written(existing, delta, x, cursor, out) && Reached(existing, delta, x, x + 1, cursor)
    ensures ClashAt(existing, delta, x) <==> exists o :: o in out && o.key == existing[x].key
  {
    var e := existing[x];
    if o :| o in out && o.key == e.key {
      Origin(existing, delta, x, cursor, out, o);
      hide Written;
      assert forall p :: 0 <= p < x ==> existing[p].key != e.key;
      var i :| 0 <= i < cursor && delta[i] == o;
      var q :| 0 <= q < x + 1 && existing[q].score < delta[i].score;
      assert q != x;
      assert Undercut(existing, x, delta[i].score);
    }
    if ClashAt(existing, delta, x) {
      var i :| 0 <= i < |delta| && delta[i].key == e.key && delta[i].score <= e.score &&
        Undercut(existing, x, delta[i].score);
      ClashWritten(existing, delta, x, i);
      assert delta[..cursor][i] == delta[i];
      assert delta[i] in out;
    }
  }

  lemma ClashWritten(existing: seq<Result>, delta: seq<Result>, x: nat, i: nat)
    requires x < |existing| && i < |delta| && KeyUnique(existing) && delta[i].key == existing[x].key
    requires Undercut(existing, x, delta[i].score)
    ensures Unmet(existing, delta[i])
  {
    var q :| 0 <= q < x && existing[q].score < delta[i].score;
    forall p | 0 <= p < |existing| && existing[p].key == delta[i].key
      ensures Undercut(existing, p + 1, delta[i].score)
    {
      assert p == x;
      assert q < p + 1;
    }
  }

  /** On a descending file everything written may stand before the next file
      record. */
  lemma KeptAbove(existing: seq<Result>, delta: seq<Result>, x: nat, cursor: nat, out: seq<Result>, o: Result)
    requires x < |existing| && cursor <= |delta| && ScoreDescending(existing)
    requires Written(existing, delta, x, cursor, out) && Reached(existing, delta, x, x + 1, cursor) && o in out
    ensures o.score >= existing[x].score && MayPrecede(existing, o, existing[x])
  {
    Origin(existing, delta, x, cursor, out, o);
    hide Written;
    if p :| 0 <= p < x && existing[p] == o {
      assert existing[p].score >= existing[x].score;
    } else {
      var i :| 0 <= i < cursor && delta[i] == o;
      var q :| 0 <= q < x + 1 && existing[q].score < delta[i].score;
      assert q < x ==> existing[q].score >= existing[x].score;
    }
  }

  lemma KeptRiders(existing: seq<Result>, delta: seq<Result>, x: nat, st: State)
    requires Ranked(delta) && Progress(existing, delta, x, st) && x < |existing| && Kept(delta, existing[x])
    requires |delta| == |st.emitted| && st.cursor <= |delta| && Reached(existing, delta, x, x + 1, st.cursor)
    ensures var out := st.out + [existing[x]];
            && (KeyUnique(existing) ==> (KeyUnique(out) <==> !Clash(existing, delta, x + 1)))
            && (ScoreDescending(existing) ==> ScoreDescending(out))
            && (ScoreDescending(existing) && BatchOrder(delta) ==> Ordered(existing, out))
  {
    var e := existing[x];
    ClashStep(existing, delta, x);
    UniqueAppend(st.out, e);
    if KeyUnique(existing) {
      KeptClash(existing, delta, x, st.cursor, st.out);
    }
    if ScoreDescending(existing) {
      forall o | o in st.out ensures o.score >= e.score && MayPrecede(existing, o, e) {
        KeptAbove(existing, delta, x, st.cursor, st.out, o);
      }
      hide Clash, ClashAt, MayPrecede, Written, Marked, Reached, KeyUnique, Kept, BatchOrder;
      DescendingAppend(st.out, e);
      if BatchOrder(delta) {
        OrderedAppend(existing, st.out, e);
      }
    }
  }

  /** On the replacement branch the batch record is already out. */
  lemma ReplacedOut(existing: seq<Result>, delta: seq<Result>, x: nat, st: State, idx: nat)
    requires ScoreDescending(delta) && x < |existing| && idx < |delta| == |st.emitted| && st.cursor <= |delta|
    requires Marked(existing, delta, x, st.cursor, st.emitted) && delta[idx].score > existing[x].score
    requires st.cursor < |delta| ==> delta[st.cursor].score <= existing[x].score
    ensures st.emitted[idx]
  {
    PastCursor(delta, st.cursor, idx, existing[x].score);
  }

  /** What the callback does after its drain. */
  function Settle(delta: seq<Result>, st: State, e: Result): State
    requires |delta| == |st.emitted| && st.cursor <= |delta|
  {
    match Find(delta, e.key)
    case None => st.(out := st.out + [e])
    case Some(idx) =>
      if delta[idx].score > e.score then EmitDelta(delta, st, idx)
      else st.(emitted := st.emitted[idx := true], out := st.out + [e])
  }

  lemma SettleProgress(existing: seq<Result>, delta: seq<Result>, x: nat, st: State)
    requires Ranked(delta) && Progress(existing, delta, x, st) && x < |existing|
    requires |delta| == |st.emitted| && st.cursor <= |delta| && Reached(existing, delta, x, x + 1, st.cursor)
    requires st.cursor < |delta| ==> delta[st.cursor].score <= existing[x].score
    ensures Progress(existing, delta, x + 1, Settle(delta, st, existing[x]))
    ensures var held := Find(delta, existing[x].key);
            held.Some? && delta[held.value].score > existing[x].score ==> st.emitted[held.value]
  {
    var e, held := existing[x], Find(delta, existing[x].key);
    KeptByFind(delta, e);
    MarkedStep(existing, delta, x, st.cursor, st.emitted);
    WrittenStep(existing, delta, x, st.cursor, st.out);
    if Kept(delta, e) {
      KeptRiders(existing, delta, x, st);
    } else {
      ReplacedOut(existing, delta, x, st, held.value);
      ReplacedNoClash(existing, delta, x);
      ClashStep(existing, delta, x);
      assert st.emitted[held.value := true] == st.emitted;
    }
    hide Marked, Written, Kept, Clash, ClashAt, KeyUnique, ScoreDescending, Ordered, BatchOrder, Find, Reached;
  }

  lemma AbsorbProgress(existing: seq<Result>, delta: seq<Result>, x: nat, st: State)
    requires Ranked(delta) && Progress(existing, delta, x, st) && x < |existing|
    requires |delta| == |st.emitted| && st.cursor <= |delta| && Reached(existing, delta, x, x, st.cursor)
    ensures AlreadyOut(delta, st, existing[x])
    ensures var r := Absorb(delta, st, existing[x]);
            Progress(existing, delta, x + 1, r) && Reached(existing, delta, x + 1, x + 1, r.cursor)
  {
    ReachedWider(existing, delta, x, st.cursor);
    var d := DrainAbove(delta, st, existing[x].score);
    assert Absorb(delta, st, existing[x]) == Settle(delta, d, existing[x]);
    assert Settle(delta, d, existing[x]).cursor == d.cursor;
    hide Progress, Find, DrainAbove, Absorb, Settle, Reached, KeyUnique;
    DrainProgress(existing, delta, x, st);
    SettleProgress(existing, delta, x, d);
    ReachedStep(existing, delta, x, d.cursor);
  }

  lemma ReachedWider(existing: seq<Result>, delta: seq<Result>, x: nat, cursor: nat)
    requires x < |existing| && Reached(existing, delta, x, x, cursor)
    ensures Reached(existing, delta, x, x + 1, cursor)
  {
    forall i | 0 <= i < cursor && i < |delta| ensures Undercut(existing, x + 1, delta[i].score) {
      UndercutMore(existing, x, x + 1, delta[i].score);
    }
  }

  // ----- the whole merge -----

  lemma {:induction false} AbsorbAllProgress(existing: seq<Result>, delta: seq<Result>, x: nat)
    requires Ranked(delta) && x <= |existing|
    ensures var st := AbsorbAll(existing[..x], delta);
            Progress(existing, delta, x, st) && Reached(existing, delta, x, x, st.cursor)
  {
    hide Progress, Ranked, Absorb, Reached;
    if x == 0 {
      ProgressStart(existing, delta);
    } else {
      AbsorbAllProgress(existing, delta, x - 1);
      AbsorbProgress(existing, delta, x - 1, AbsorbAll(existing[..x - 1], delta));
      assert existing[..x][..x - 1] == existing[..x - 1];
    }
  }

  /** What Progress says at the end. */
  ghost predicate Outcome(existing: seq<Result>, delta: seq<Result>, out: seq<Result>) {
    && Written(existing, delta, |existing|, |delta|, out)
    && (KeyUnique(existing) ==> (KeyUnique(out) <==> !Clash(existing, delta, |existing|)))
    && (ScoreDescending(existing) ==> ScoreDescending(out))
    && (ScoreDescending(existing) && BatchOrder(delta) ==> Ordered(existing, out))
  }

  lemma RestProgress(existing: seq<Result>, delta: seq<Result>, st: State, i: nat)
    requires Ranked(delta) && i <= |delta| == |st.emitted| && Progress(existing, delta, |existing|, st.(cursor := i))
    requires forall k :: i <= k < |delta| ==> !Undercut(existing, |existing|, delta[k].score)
    ensures Outcome(existing, delta, EmitRest(delta, st, i).out)
    decreases |delta| - i
  {
    hide Ranked, Undercut, Written, Clash, KeyUnique, ScoreDescending, Ordered, BatchOrder, Marked;
    if i < |delta| {
      hide Progress, Outcome;
      assert Passable(existing, delta, |existing|, i);
      PassProgress(existing, delta, |existing|, st.(cursor := i));
      RestProgress(existing, delta, EmitDelta(delta, st, i), i + 1);
    }
  }

  lemma MergeProgress(existing: seq<Result>, delta: seq<Result>)
    requires Ranked(delta)
    ensures Outcome(existing, delta, Merge(existing, delta))
  {
    var st := AbsorbAll(existing, delta);
    AbsorbAllProgress(existing, delta, |existing|);
    assert existing[..|existing|] == existing;
    assert st.(cursor := st.cursor) == st;
    hide AbsorbAll, Progress, Outcome, Ranked, Undercut;
    RestProgress(existing, delta, st, st.cursor);
  }

  /** For any file and a ranked batch, exactly these records are written: a file
      record that no batch record beats, and a batch record whose key the file
      does not hold above the place where that record belongs. */
  lemma MergeWrites(existing: seq<Result>, delta: seq<Result>, r: Result)
    requires Ranked(delta)
    ensures r in Merge(existing, delta) <==> (r in existing && Kept(delta, r)) || (r in delta && Unmet(existing, r))
  {
    MergeProgress(existing, delta);
    assert existing[..|existing|] == existing && delta[..|delta|] == delta;
    hide Merge, Kept, Unmet, Clash, KeyUnique, ScoreDescending, Ordered, BatchOrder;
  }

  /** For a key-unique file, in whatever order, and a ranked batch: the merge
      repeats a key exactly if some file record stays although the file went
      below its batch record's score further up. */
  lemma UniqueIffNoClash(existing: seq<Result>, delta: seq<Result>)
    requires KeyUnique(existing) && Ranked(delta)
    ensures KeyUnique(Merge(existing, delta)) <==>
            !exists q, p, i :: 0 <= q < p < |existing| && 0 <= i < |delta| && existing[p].key == delta[i].key &&
                               existing[q].score < delta[i].score <= existing[p].score
  {
    MergeProgress(existing, delta);
    hide Merge, Written, KeyUnique, ScoreDescending, Ordered, BatchOrder;
    if Clash(existing, delta, |existing|) {
      var p :| 0 <= p < |existing| && ClashAt(existing, delta, p);
      var i :| 0 <= i < |delta| && delta[i].key == existing[p].key && delta[i].score <= existing[p].score &&
               Undercut(existing, p, delta[i].score);
      var q :| 0 <= q < p && existing[q].score < delta[i].score;
      assert existing[q].score < delta[i].score <= existing[p].score;
    }
    if q, p, i :| 0 <= q < p < |existing| && 0 <= i < |delta| && existing[p].key == delta[i].key &&
                  existing[q].score < delta[i].score <= existing[p].score {
      assert Undercut(existing, p, delta[i].score);
      assert ClashAt(existing, delta, p);
    }
  }

  // ----- on a ranked file -----

  /** This batch record beats every existing one with its key. */
  ghost predicate Wanted(existing: seq<Result>, d: Result) {
    forall i :: 0 <= i < |existing| && existing[i].key == d.key ==> existing[i].score < d.score
  }

  /** out is ranked and holds, for every key of either input, the record with
      the higher score, the existing one on a tie, and nothing else. */
  ghost predicate Merged(existing: seq<Result>, delta: seq<Result>, out: seq<Result>) {
    && Ranked(out)
    && forall r :: r in out <==>
         (r in existing && Kept(delta, r)) || (r in delta && Wanted(existing, r))
  }

  lemma UnmetIsWanted(existing: seq<Result>, d: Result)
    requires ScoreDescending(existing)
    ensures Unmet(existing, d) <==> Wanted(existing, d)
  {
    forall p | 0 <= p < |existing| ensures Undercut(existing, p + 1, d.score) <==> existing[p].score < d.score {
      if Undercut(existing, p + 1, d.score) {
        var q :| 0 <= q < p + 1 && existing[q].score < d.score;
        assert q < p ==> existing[q].score >= existing[p].score;
      }
    }
    hide Undercut;
  }

  lemma NoClashWhenDescending(existing: seq<Result>, delta: seq<Result>)
    requires ScoreDescending(existing)
    ensures !Clash(existing, delta, |existing|)
  {
    forall p | 0 <= p < |existing| ensures !ClashAt(existing, delta, p) {
      forall q | 0 <= q < p ensures existing[q].score >= existing[p].score {
      }
    }
  }

  /** The merge of a ranked file and a ranked batch. */
  lemma MergeIsMerged(existing: seq<Result>, delta: seq<Result>)
    requires Ranked(existing) && Ranked(delta)
    ensures Merged(existing, delta, Merge(existing, delta))
    ensures BatchOrder(delta) ==> Ordered(existing, Merge(existing, delta))
  {
    MergeProgress(existing, delta);
    NoClashWhenDescending(existing, delta);
    hide Merge, Written, Clash, KeyUnique, Ordered, BatchOrder, Kept;
    forall r
      ensures r in Merge(existing, delta) <==> (r in existing && Kept(delta, r)) || (r in delta && Wanted(existing, r))
    {
      MergeWrites(existing, delta, r);
      UnmetIsWanted(existing, r);
    }
  }

  /** On any file the score table of the merge is the key-wise maximum of its
      inputs' tables: the best record of a key is never the one left out. */
  lemma MergeBest(existing: seq<Result>, delta: seq<Result>)
    requires Ranked(delta)
    ensures Best(Merge(existing, delta)) == MaxMerge(Best(existing), Best(delta))
  {
    var out, m := Merge(existing, delta), MaxMerge(Best(existing), Best(delta));
    hide Merge;
    forall i | 0 <= i < |out| ensures out[i].key in m && out[i].score <= m[out[i].key] {
      MergeWrites(existing, delta, out[i]);
      hide Kept, Unmet;
      BestMeaning(existing, out[i].key);
      BestMeaning(delta, out[i].key);
    }
    forall k | k in m ensures exists i :: 0 <= i < |out| && out[i].key == k && out[i].score == m[k] {
      var r := Winner(existing, delta, k);
      MergeWrites(existing, delta, r);
      var i :| 0 <= i < |out| && out[i] == r;
    }
    BestFromMeaning(out, m);
  }

  lemma Winner(existing: seq<Result>, delta: seq<Result>, k: string) returns (r: Result)
    requires k in MaxMerge(Best(existing), Best(delta))
    ensures r.key == k && r.score == MaxMerge(Best(existing), Best(delta))[k]
    ensures (r in existing && Kept(delta, r)) || (r in delta && Unmet(existing, r))
  {
    BestMeaning(existing, k);
    BestMeaning(delta, k);
    var e, d := Best(existing), Best(delta);
    if k in e && (k !in d || e[k] >= d[k]) {
      var i :| 0 <= i < |existing| && existing[i].key == k && existing[i].score == e[k];
      r := existing[i];
    } else {
      var i :| 0 <= i < |delta| && delta[i].key == k && delta[i].score == d[k];
      r := delta[i];
      forall p | 0 <= p < |existing| && existing[p].key == k ensures Undercut(existing, p + 1, r.score) {
        assert existing[p].score <= e[k] < r.score;
      }
    }
  }
}
