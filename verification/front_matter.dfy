/**
 The front-matter editor: the comma-separated text the user types is split,
 each piece is trimmed, and a piece is kept only when it is on the allow-list
 and is the first occurrence of its trimmed value. The stored list is shown
 back to the user joined with commas.
 */
module FrontMatter {
  import opened Text
  import opened SettingsSchema

  /** The character the front-matter list is split on and joined with. */
  const Separator: char := ','

  /**
   `a.indexOf(v)`: the position of the first element equal to `v`, or -1 when
   there is none.
   */
  function IndexOf(a: seq<string>, v: string): (k: int)
    ensures -1 <= k < |a|
    ensures k == -1 <==> v !in a
    ensures 0 <= k ==> a[k] == v && forall j :: 0 <= j < k ==> a[j] != v
  {
    if |a| == 0 then -1
    else if a[0] == v then 0
    else
      var k := IndexOf(a[1..], v);
      if k == -1 then -1 else k + 1
  }

  /** `ps.map(v => v.trim())`. */
  function TrimAll(ps: seq<string>): (r: seq<string>)
    ensures |r| == |ps|
    ensures forall i :: 0 <= i < |ps| ==> r[i] == Trim(ps[i])
  {
    if |ps| == 0 then [] else [Trim(ps[0])] + TrimAll(ps[1..])
  }

  /**
   The trimmed pieces of the raw text, in order: at least one, each without
   whitespace at its ends and without a separator.
   */
  function Candidates(raw: string): (r: seq<string>)
    ensures |r| >= 1
    ensures forall i :: 0 <= i < |r| ==> IsTrimmed(r[i]) && Separator !in r[i]
  {
    var ps := Split(raw, Separator);
    assert forall i :: 0 <= i < |ps| ==> Separator !in Trim(ps[i]) by {
      forall i | 0 <= i < |ps| {
        TrimKeepsAbsent(ps[i], Separator);
      }
    }
    TrimAll(ps)
  }

  /** The filter callback: the element at `i` is allow-listed and is the first of its value. */
  predicate KeptAt(a: seq<string>, i: int)
    requires 0 <= i < |a|
    ensures KeptAt(a, i) <==> a[i] in AllowList && a[i] !in a[..i]
  {
    a[i] in AllowList && IndexOf(a, a[i]) == i
  }

  /**
   Every element of `r` occurs in `a`, and `r` lists them in the order in
   which they first appear there; strictly increasing first positions also
   rule out repeats.
   */
  predicate InFirstOccurrenceOrder(a: seq<string>, r: seq<string>) {
    && (forall i :: 0 <= i < |r| ==> r[i] in a)
    && (forall i, j :: 0 <= i < j < |r| ==> IndexOf(a, r[i]) < IndexOf(a, r[j]))
  }

  /** `r` holds exactly the allow-listed values among the first `n` elements of `a`. */
  ghost predicate AllowedAmongFirst(a: seq<string>, n: nat, r: seq<string>)
    requires n <= |a|
  {
    forall x :: x in r <==> x in AllowList && x in a[..n]
  }

  /** The filter applied to the first `n` elements of `a`; the callback sees all of `a`. */
  function FilterPrefix(a: seq<string>, n: nat): (r: seq<string>)
    requires n <= |a|
    ensures AllowedAmongFirst(a, n, r)
    ensures InFirstOccurrenceOrder(a, r)
    ensures forall i :: 0 <= i < |r| ==> IndexOf(a, r[i]) < n
  {
    if n == 0 then []
    else
      var prev := FilterPrefix(a, n - 1);
      if KeptAt(a, n - 1) then
        KeptStep(a, n, prev);
        AppendLaterOccurrence(a, prev, n - 1);
        prev + [a[n - 1]]
      else
        SkippedStep(a, n, prev);
        prev
  }

  /** A kept element joins the allow-listed values seen so far. */
  lemma KeptStep(a: seq<string>, n: nat, prev: seq<string>)
    requires 0 < n <= |a| && KeptAt(a, n - 1)
    requires AllowedAmongFirst(a, n - 1, prev)
    ensures AllowedAmongFirst(a, n, prev + [a[n - 1]])
  {
    assert a[..n] == a[..n - 1] + [a[n - 1]];
  }

  /** A skipped element is off the allow-list or already seen. */
  lemma SkippedStep(a: seq<string>, n: nat, prev: seq<string>)
    requires 0 < n <= |a| && !KeptAt(a, n - 1)
    requires AllowedAmongFirst(a, n - 1, prev)
    ensures AllowedAmongFirst(a, n, prev)
  {
    assert a[..n] == a[..n - 1] + [a[n - 1]];
    if a[n - 1] in AllowList {
      var k := IndexOf(a, a[n - 1]);
      assert a[..n - 1][k] == a[n - 1];
    }
  }

  /** Appending the first occurrence at `k` to a list of earlier first occurrences keeps the order. */
  lemma AppendLaterOccurrence(a: seq<string>, prev: seq<string>, k: int)
    requires 0 <= k < |a| && IndexOf(a, a[k]) == k
    requires InFirstOccurrenceOrder(a, prev)
    requires forall i :: 0 <= i < |prev| ==> IndexOf(a, prev[i]) < k
    ensures InFirstOccurrenceOrder(a, prev + [a[k]])
  {
    var r := prev + [a[k]];
    assert forall i :: 0 <= i < |prev| ==> r[i] == prev[i];
    assert r[|prev|] == a[k] && a[k] in a;
    forall i, j | 0 <= i < j < |r|
      ensures IndexOf(a, r[i]) < IndexOf(a, r[j])
    {
      if j == |prev| {
        assert r[j] == a[k];
      }
    }
  }

  /** Lists kept in first-occurrence order of `a` have no repeated element. */
  lemma OrderedHasNoDuplicates(a: seq<string>, r: seq<string>)
    requires InFirstOccurrenceOrder(a, r)
    ensures NoDuplicates(r)
  {
  }

  /**
   The `filter` step over the whole candidate array: the allow-listed
   candidates, each once, in first-occurrence order.
   */
  function KeepFirstAllowed(a: seq<string>): (r: seq<string>)
    ensures IsPropertyList(r)
    ensures forall x :: x in r <==> x in AllowList && x in a
    ensures InFirstOccurrenceOrder(a, r)
  {
    var r := FilterPrefix(a, |a|);
    assert a[..|a|] == a;
    OrderedHasNoDuplicates(a, r);
    assert forall i :: 0 <= i < |r| ==> r[i] in r;
    r
  }

  /**
   The whole edit handler's list: split on `,`, trim, keep allow-listed first
   occurrences. It never fails: every input yields a property list.
   */
  function Filter(raw: string): (r: seq<string>)
    ensures IsPropertyList(r)
    ensures forall x :: x in r <==> x in AllowList && x in Candidates(raw)
    ensures InFirstOccurrenceOrder(Candidates(raw), r)
  {
    KeepFirstAllowed(Candidates(raw))
  }

  /**
   How the stored list is shown in the editor: joined with `,`. The shown
   text of a non-empty property list splits and trims back into that list.
   */
  function Display(props: seq<string>): (r: string)
    ensures IsPropertyList(props) && |props| > 0 ==> Candidates(r) == props
  {
    JoinedCandidates(props);
    Join(props, Separator)
  }

  /** Splitting and trimming the comma-join of a non-empty property list gives the list back. */
  lemma JoinedCandidates(xs: seq<string>)
    ensures IsPropertyList(xs) && |xs| > 0 ==> Candidates(Join(xs, Separator)) == xs
  {
    if IsPropertyList(xs) && |xs| > 0 {
      PropertyListEntriesPlain(xs);
      CandidatesOfJoin(xs);
      var c := Candidates(Join(xs, Separator));
      forall i | 0 <= i < |xs|
        ensures c[i] == xs[i]
      {
        TrimIsIdentityIffTrimmed(xs[i]);
      }
    }
  }

  /** Dropping the head of a list without repeats removes exactly that one value. */
  lemma TailMembers(r: seq<string>, x: string)
    requires |r| > 0 && NoDuplicates(r)
    ensures x in r[1..] <==> x in r && x != r[0]
  {
    if x in r && x != r[0] {
      var q :| 0 <= q < |r| && r[q] == x;
      assert r[1..][q - 1] == x;
    }
  }

  /** Two lists in first-occurrence order of `a` with the same elements start alike. */
  lemma SameHead(a: seq<string>, r1: seq<string>, r2: seq<string>)
    requires |r1| > 0 && |r2| > 0
    requires forall x :: x in r1 <==> x in r2
    requires InFirstOccurrenceOrder(a, r1)
    requires InFirstOccurrenceOrder(a, r2)
    ensures r1[0] == r2[0]
  {
    assert r1[0] in r1 && r2[0] in r2;
    var j :| 0 <= j < |r2| && r2[j] == r1[0];
    var k :| 0 <= k < |r1| && r1[k] == r2[0];
  }

  /** The tail of a list in first-occurrence order is in first-occurrence order. */
  lemma TailInOrder(a: seq<string>, r: seq<string>)
    requires |r| > 0 && InFirstOccurrenceOrder(a, r)
    ensures InFirstOccurrenceOrder(a, r[1..])
  {
    forall i, j | 0 <= i < j < |r[1..]|
      ensures IndexOf(a, r[1..][i]) < IndexOf(a, r[1..][j])
    {
      assert r[1..][i] == r[i + 1] && r[1..][j] == r[j + 1];
    }
  }

  /**
   Two lists with the same elements, each in first-occurrence order of the
   same `a`, are the same list.
   */
  lemma {:induction false} FirstOccurrenceOrderIsUnique(a: seq<string>, r1: seq<string>, r2: seq<string>)
    requires forall x :: x in r1 <==> x in r2
    requires InFirstOccurrenceOrder(a, r1)
    requires InFirstOccurrenceOrder(a, r2)
    ensures r1 == r2
  {
    assert |r1| > 0 ==> r1[0] in r1;
    assert |r2| > 0 ==> r2[0] in r2;
    if |r1| > 0 && |r2| > 0 {
      SameHead(a, r1, r2);
      OrderedHasNoDuplicates(a, r1);
      OrderedHasNoDuplicates(a, r2);
      forall x
        ensures x in r1[1..] <==> x in r2[1..]
      {
        TailMembers(r1, x);
        TailMembers(r2, x);
      }
      TailInOrder(a, r1);
      TailInOrder(a, r2);
      FirstOccurrenceOrderIsUnique(a, r1[1..], r2[1..]);
      assert r1 == [r1[0]] + r1[1..];
      assert r2 == [r2[0]] + r2[1..];
    }
  }

  /**
   The filter's result is exactly determined by its three promises: any list
   holding precisely the allow-listed candidates, in first-occurrence order,
   is the filter's result.
   */
  lemma FilterIsCharacterized(raw: string, r: seq<string>)
    requires forall x :: x in r <==> x in AllowList && x in Candidates(raw)
    requires InFirstOccurrenceOrder(Candidates(raw), r)
    ensures Filter(raw) == r
  {
    FirstOccurrenceOrderIsUnique(Candidates(raw), Filter(raw), r);
  }

  /** The candidates of a join are the trimmed elements, as long as none holds a `,`. */
  lemma CandidatesOfJoin(ps: seq<string>)
    requires |ps| >= 1
    requires forall i :: 0 <= i < |ps| ==> Separator !in ps[i]
    ensures |Candidates(Join(ps, Separator))| == |ps|
    ensures forall i :: 0 <= i < |ps| ==> Candidates(Join(ps, Separator))[i] == Trim(ps[i])
  {
    SplitJoin(ps, Separator);
  }

  /** Empty text, or text naming nothing on the allow-list, gives the empty list. */
  lemma FilterOfNothingAllowed(raw: string)
    requires forall x :: x in Candidates(raw) ==> x !in AllowList
    ensures Filter(raw) == []
  {
    FilterIsCharacterized(raw, []);
  }

  /** The empty text is one empty candidate, which is not on the allow-list. */
  lemma FilterOfEmptyText()
    ensures Filter("") == []
  {
    assert Candidates("") == [""];
    EmptyNameNotAllowed();
    FilterOfNothingAllowed("");
  }

  /** In a list without repeats, every element is the first of its value. */
  lemma IndexOfDistinct(xs: seq<string>, i: int)
    requires NoDuplicates(xs)
    requires 0 <= i < |xs|
    ensures IndexOf(xs, xs[i]) == i
  {
    assert xs[i] in xs;
  }

  /**
   Display/edit round trip: submitting the shown text of a property list
   unchanged stores the same list again.
   */
  lemma FilterDisplayRoundTrip(xs: seq<string>)
    requires IsPropertyList(xs)
    ensures Filter(Display(xs)) == xs
  {
    if |xs| == 0 {
      FilterOfEmptyText();
    } else {
      forall i | 0 <= i < |xs|
        ensures IndexOf(xs, xs[i]) == i
      {
        IndexOfDistinct(xs, i);
      }
      FilterIsCharacterized(Display(xs), xs);
    }
  }

  /** Filtering what the editor shows after an edit changes nothing further. */
  lemma FilterIdempotent(raw: string)
    ensures Filter(Display(Filter(raw))) == Filter(raw)
  {
    FilterDisplayRoundTrip(Filter(raw));
  }
}
