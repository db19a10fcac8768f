/** Scan results, the order every result list is kept in, and the score table
    of a stream of results: each key with the best score seen for it. */
module Results {
  import opened Ordering

  /** The measured latency in nanoseconds, and the other columns. */
  datatype Result = Result(key: string, score: real, latency: nat, rest: string)

  /** Score descending, then key ascending. */
  function CmpResult(a: Result, b: Result): int {
    if a.score > b.score then -1
    else if a.score < b.score then 1
    else StrCmp(a.key, b.key)
  }

  lemma CmpResultOrders()
    ensures TotalPreorder(CmpResult)
  {
    forall a, b ensures CmpResult(a, b) == -CmpResult(b, a) {
      StrCmpFlip(a.key, b.key);
    }
    forall a, b, c | CmpResult(a, b) <= 0 && CmpResult(b, c) <= 0 ensures CmpResult(a, c) <= 0 {
      if a.score == b.score == c.score {
        StrCmpTrans(a.key, b.key, c.key);
      }
    }
  }

  /** A higher score comes first, and on ties the key that comes first. */
  lemma CmpResultMeaning(a: Result, b: Result)
    ensures CmpResult(a, b) < 0 <==> a.score > b.score || (a.score == b.score && BytesBefore(a.key, b.key))
    ensures CmpResult(a, b) == 0 <==> a.score == b.score && a.key == b.key
  {
    StrCmpMeaning(a.key, b.key);
  }

  ghost predicate ScoreDescending(s: seq<Result>) {
    forall i, j :: 0 <= i < j < |s| ==> s[i].score >= s[j].score
  }

  ghost predicate KeyUnique(s: seq<Result>) {
    forall i, j :: 0 <= i < j < |s| ==> s[i].key != s[j].key
  }

  /** What every flush leaves on disk. */
  ghost predicate Ranked(s: seq<Result>) {
    ScoreDescending(s) && KeyUnique(s)
  }

  function Max(a: real, b: real): real {
    if a >= b then a else b
  }

  /** The best score seen for each key. */
  function Best(s: seq<Result>): map<string, real> {
    if s == [] then map[]
    else
      Raise(Best(s[..|s| - 1]), s[|s| - 1])
  }

  function Raise(m: map<string, real>, r: Result): map<string, real> {
    m[r.key := if r.key in m then Max(m[r.key], r.score) else r.score]
  }

  /** Key by key, the higher of two score tables. */
  function MaxMerge(m: map<string, real>, n: map<string, real>): map<string, real> {
    map k | k in m.Keys + n.Keys ::
      if k in m && k in n then Max(m[k], n[k]) else if k in m then m[k] else n[k]
  }

  lemma {:induction false} BestMeaning(s: seq<Result>, k: string)
    ensures k in Best(s) <==> exists i :: 0 <= i < |s| && s[i].key == k
    ensures forall i :: 0 <= i < |s| && s[i].key == k ==> s[i].score <= Best(s)[k]
    ensures k in Best(s) ==> exists i :: 0 <= i < |s| && s[i].key == k && s[i].score == Best(s)[k]
  {
    if s != [] {
      var t := s[..|s| - 1];
      BestMeaning(t, k);
      assert forall i :: 0 <= i < |t| ==> s[i] == t[i];
      if k in Best(t) {
        var i :| 0 <= i < |t| && t[i].key == k && t[i].score == Best(t)[k];
        assert s[i].key == k && s[i].score == Best(t)[k];
      }
    }
  }

  /** Score tables of a concatenation combine by maximum. */
  lemma {:induction false} BestConcat(s: seq<Result>, t: seq<Result>)
    ensures Best(s + t) == MaxMerge(Best(s), Best(t))
  {
    if t == [] {
      assert s + t == s;
      assert MaxMerge(Best(s), map[]) == Best(s);
    } else {
      var u := t[..|t| - 1];
      assert (s + t)[..|s + t| - 1] == s + u;
      BestConcat(s, u);
      var r := t[|t| - 1];
      assert Best(s + t) == Raise(Best(s + u), r) && Best(t) == Raise(Best(u), r);
      hide Best;
      RaiseMerge(Best(s), Best(u), r);
    }
  }

  lemma RaiseMerge(m: map<string, real>, n: map<string, real>, r: Result)
    ensures Raise(MaxMerge(m, n), r) == MaxMerge(m, Raise(n, r))
  {
  }

  /** A score table is fixed by what it says about each key. */
  lemma BestFromMeaning(s: seq<Result>, m: map<string, real>)
    requires forall i :: 0 <= i < |s| ==> s[i].key in m && s[i].score <= m[s[i].key]
    requires forall k :: k in m ==> exists i :: 0 <= i < |s| && s[i].key == k && s[i].score == m[k]
    ensures Best(s) == m
  {
    forall k ensures k in Best(s) <==> k in m {
      BestMeaning(s, k);
    }
    forall k | k in m ensures Best(s)[k] == m[k] {
      BestMeaning(s, k);
    }
  }
}
