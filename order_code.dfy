/**
 * The order-code extractor of the serial-number reconciliation job.
 *
 * A raw MES order string is reduced to the order code that the downstream
 * inventory system uses as its key. The job does this with two regular
 * expressions tried in turn:
 *   tier 1  [A-Z]+[A-Z0-9-]*(?=-[0-9]-[0-9])   (a run followed by a -d-d suffix)
 *   tier 2  [A-Z]+[A-Z0-9-]*                    (a plain run)
 * and returns the input unchanged when neither matches. Instead of a regular
 * expression engine the two patterns are written out here as predicates over
 * positions of the string, with the leftmost-start / greedy-end choice that a
 * backtracking `re.search` makes.
 */
module OrderCode {
  import opened Wrappers

  predicate IsUpper(c: char) { 'A' <= c <= 'Z' }

  predicate IsDigit(c: char) { '0' <= c <= '9' }

  /** The character class [A-Z0-9-]. */
  predicate InClass(c: char) { IsUpper(c) || IsDigit(c) || c == '-' }

  /** The lookahead (?=-[0-9]-[0-9]) holds at position j. */
  predicate SuffixAt(s: string, j: nat)
  {
    j + 4 <= |s| && s[j] == '-' && IsDigit(s[j + 1]) && s[j + 2] == '-' && IsDigit(s[j + 3])
  }

  /** s[i..e] is matched by [A-Z]+[A-Z0-9-]*: non-empty, starts upper-case, all in the class. */
  predicate RunMatch(s: string, i: nat, e: nat)
  {
    i < e <= |s| && IsUpper(s[i]) && forall k :: i < k < e ==> InClass(s[k])
  }

  /** s[i..e] is a match of the tier-1 pattern: a run whose end is followed by -d-d. */
  predicate SuffixMatch(s: string, i: nat, e: nat)
  {
    RunMatch(s, i, e) && SuffixAt(s, e)
  }

  /** Some ASCII upper-case letter occurs in s. */
  predicate HasUpper(s: string)
  {
    exists k :: 0 <= k < |s| && IsUpper(s[k])
  }

  /** The end of the maximal class run that starts at k (what a greedy star consumes). */
  function RunEnd(s: string, k: nat): (e: nat)
    requires k <= |s|
    ensures k <= e <= |s|
    ensures forall j :: k <= j < e ==> InClass(s[j])
    ensures e == |s| || !InClass(s[e])
    decreases |s| - k
  {
    if k < |s| && InClass(s[k]) then RunEnd(s, k + 1) else k
  }

  /** The tier-1 and tier-2 runs from an upper-case start i end anywhere up to the class run's end. */
  lemma RunMatchIff(s: string, i: nat)
    requires i < |s| && IsUpper(s[i])
    ensures forall e: nat :: RunMatch(s, i, e) <==> i < e <= RunEnd(s, i + 1)
  {
  }

  /**
   * The greatest end in (i, hi] at which the -d-d lookahead holds: the greedy
   * star gives back characters one at a time until the lookahead succeeds.
   */
  function LastSuffixEnd(s: string, i: nat, hi: nat): (r: Option<nat>)
    requires i <= hi
    ensures r.Some? ==> i < r.value <= hi && SuffixAt(s, r.value)
    ensures r.Some? ==> forall e :: r.value < e <= hi ==> !SuffixAt(s, e)
    ensures r.None? ==> forall e :: i < e <= hi ==> !SuffixAt(s, e)
    decreases hi
  {
    if hi == i then None
    else if SuffixAt(s, hi) then Some(hi)
    else LastSuffixEnd(s, i, hi - 1)
  }

  /**
   * The tier-1 search from position i on: the first start holding an upper-case
   * letter from which a match exists, with the furthest end for that start.
   */
  function FindSuffixMatch(s: string, i: nat): (r: Option<(nat, nat)>)
    requires i <= |s|
    ensures r.Some? ==> i <= r.value.0 && SuffixMatch(s, r.value.0, r.value.1)
    ensures r.Some? ==> forall a: nat, e: nat :: i <= a && SuffixMatch(s, a, e) ==>
                          r.value.0 < a || (a == r.value.0 && e <= r.value.1)
    ensures r.None? ==> forall a: nat, e: nat :: i <= a && SuffixMatch(s, a, e) ==> false
    decreases |s| - i
  {
    if i == |s| then None
    else if IsUpper(s[i]) then
      RunMatchIff(s, i);
      match LastSuffixEnd(s, i, RunEnd(s, i + 1))
      case Some(e) => Some((i, e))
      case None => FindSuffixMatch(s, i + 1)
    else
      FindSuffixMatch(s, i + 1)
  }

  /** The tier-2 start: the first upper-case letter at or after i. */
  function FirstUpper(s: string, i: nat): (r: Option<nat>)
    requires i <= |s|
    ensures r.Some? ==> i <= r.value < |s| && IsUpper(s[r.value])
    ensures r.Some? ==> forall k :: i <= k < r.value ==> !IsUpper(s[k])
    ensures r.None? ==> forall k :: i <= k < |s| ==> !IsUpper(s[k])
    decreases |s| - i
  {
    if i == |s| then None
    else if IsUpper(s[i]) then Some(i)
    else FirstUpper(s, i + 1)
  }

  /**
   * The order code of a raw order string. When the string holds an upper-case
   * letter the result is a non-empty contiguous piece of it that starts with an
   * upper-case letter and holds only [A-Z0-9-]; otherwise it is the input itself.
   */
  function ExtractOrderNumber(order: string): (r: string)
    ensures !HasUpper(order) ==> r == order
    ensures HasUpper(order) ==>
              exists i, e :: 0 <= i < e <= |order| && r == order[i..e] && RunMatch(order, i, e)
  {
    match FindSuffixMatch(order, 0)
    case Some(m) =>
      assert RunMatch(order, m.0, m.1);
      order[m.0..m.1]
    case None =>
      match FirstUpper(order, 0)
      case Some(i) =>
        var e := RunEnd(order, i + 1);
        assert RunMatch(order, i, e);
        order[i..e]
      case None => order
  }

  /** Tier 1: the match with the leftmost start and, for that start, the furthest end wins. */
  lemma SuffixTier(s: string, i: nat, e: nat)
    requires SuffixMatch(s, i, e)
    requires forall a: nat, b: nat :: SuffixMatch(s, a, b) ==> i < a || (i == a && b <= e)
    ensures ExtractOrderNumber(s) == s[i..e]
  {
    var m := FindSuffixMatch(s, 0);
    assert m.Some?;
    assert m.value.0 == i && m.value.1 == e;
  }

  /**
   * Tier 2: with no tier-1 match, the result is the maximal class run that
   * starts at the leftmost upper-case letter.
   */
  lemma PlainTier(s: string, i: nat)
    requires forall a: nat, b: nat :: !SuffixMatch(s, a, b)
    requires i < |s| && IsUpper(s[i])
    requires forall k :: 0 <= k < i ==> !IsUpper(s[k])
    ensures var r := ExtractOrderNumber(s);
              && i + |r| <= |s| && r == s[i..i + |r|]
              && (forall k :: 0 <= k < |r| ==> InClass(r[k]))
              && (i + |r| == |s| || !InClass(s[i + |r|]))
  {
    assert FindSuffixMatch(s, 0).None?;
    var f := FirstUpper(s, 0);
    assert f == Some(i);
    var e := RunEnd(s, i + 1);
    assert ExtractOrderNumber(s) == s[i..e];
  }

  /** Fallback: a string without an ASCII upper-case letter is its own order code. */
  lemma Fallback(s: string)
    requires forall k :: 0 <= k < |s| ==> !IsUpper(s[k])
    ensures ExtractOrderNumber(s) == s
  {
  }

  /** The line-item suffix is stripped. */
  lemma ExampleSuffixed()
    ensures ExtractOrderNumber("ABC-123-1-2") == "ABC-123"
  {
    var s := "ABC-123-1-2";
    assert SuffixMatch(s, 0, 7);
    SuffixTier(s, 0, 7);
    assert s[0..7] == "ABC-123";
  }

  /** Without a -d-d suffix the class run goes on through '-' and 'N'. */
  lemma ExamplePlain()
    ensures ExtractOrderNumber("XYZ99-Note") == "XYZ99-N"
  {
    var s := "XYZ99-Note";
    forall b: nat | b + 4 <= |s|
      ensures !SuffixAt(s, b)
    {
      assert b <= 6;
      if b != 5 {
        assert s[b] != '-';
      } else {
        assert s[b + 2] != '-';
      }
    }
    assert FindSuffixMatch(s, 0).None?;
    assert FirstUpper(s, 0) == Some(0);
    assert RunEnd(s, 7) == 7;
    assert RunEnd(s, 1) == 7;
    assert s[0..7] == "XYZ99-N";
  }

  /** When several -d-d suffixes follow one run, the furthest one is kept. */
  lemma ExampleFurthestEnd()
    ensures ExtractOrderNumber("A-1-2-3") == "A-1"
  {
    var s := "A-1-2-3";
    assert SuffixMatch(s, 0, 1) && SuffixMatch(s, 0, 3);
    SuffixTier(s, 0, 3);
    assert s[0..3] == "A-1";
  }

  /** Split lines of one order: the -d-d line suffix is stripped, leaving the order code. */
  lemma ExampleSplitLines()
    ensures ExtractOrderNumber("ORD-5-1-1") == "ORD-5"
    ensures ExtractOrderNumber("ORD-5-1-2") == "ORD-5"
  {
    SplitLine("ORD-5-1-1");
    SplitLine("ORD-5-1-2");
  }

  lemma SplitLine(s: string)
    requires s == "ORD-5-1-1" || s == "ORD-5-1-2"
    ensures ExtractOrderNumber(s) == "ORD-5"
  {
    assert SuffixMatch(s, 0, 5);
    forall a: nat, b: nat | SuffixMatch(s, a, b)
      ensures 0 < a || (0 == a && b <= 5)
    {
      assert b + 4 <= |s|;
    }
    SuffixTier(s, 0, 5);
    assert s[0..5] == "ORD-5";
  }

  /** An order string that is already an order code comes back unchanged from the plain tier. */
  lemma ExampleAlreadyCode()
    ensures ExtractOrderNumber("ORD-5") == "ORD-5"
  {
    var s := "ORD-5";
    forall b: nat | b + 4 <= |s|
      ensures !SuffixAt(s, b)
    {
      assert s[b] != '-';
    }
    assert FindSuffixMatch(s, 0).None?;
    assert FirstUpper(s, 0) == Some(0);
    assert RunEnd(s, 1) == 5;
    assert s[0..5] == s;
  }
}
