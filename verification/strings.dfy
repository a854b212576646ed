/** String searching shared by the JavaScript and the Rust code: the first
    occurrence of a separator (Rust's `str::contains`), and JavaScript's
    `String.prototype.split` with a non-empty string separator. */
module Strings {
  import opened Wrappers

  /** `sep` occurs in `s` starting at position `i`. */
  predicate OccursAt(s: string, sep: string, i: int) {
    0 <= i && i + |sep| <= |s| && s[i..i + |sep|] == sep
  }

  /** The first position at or after `from` where `sep` occurs. */
  function IndexOf(s: string, sep: string, from: nat): (r: Option<nat>)
    ensures r.Some? ==> from <= r.value && OccursAt(s, sep, r.value)
    decreases |s| - from
  {
    if from + |sep| > |s| then None
    else if s[from..from + |sep|] == sep then Some(from)
    else IndexOf(s, sep, from + 1)
  }

  /** `IndexOf` finds the first occurrence: none lies between `from` and the
      position found, and when nothing is found there is none at all. */
  lemma {:induction false} IndexOfIsFirst(s: string, sep: string, from: nat)
    ensures IndexOf(s, sep, from).Some? ==>
      forall j :: from <= j < IndexOf(s, sep, from).value ==> !OccursAt(s, sep, j)
    ensures IndexOf(s, sep, from).None? ==> forall j :: from <= j ==> !OccursAt(s, sep, j)
    decreases |s| - from
  {
    if from + |sep| <= |s| && s[from..from + |sep|] != sep {
      IndexOfIsFirst(s, sep, from + 1);
    }
  }

  /** The search from `from` finds `sep` at `i`. */
  predicate FoundAt(s: string, sep: string, from: nat, i: int) {
    IndexOf(s, sep, from).Some? && IndexOf(s, sep, from).value == i
  }

  /** `s.contains(sub)`. */
  predicate Contains(s: string, sub: string) {
    IndexOf(s, sub, 0).Some?
  }

  /** `Contains` agrees with the plain definition of a substring. */
  lemma ContainsIff(s: string, sub: string)
    ensures Contains(s, sub) <==> exists i :: OccursAt(s, sub, i)
  {
    IndexOfIsFirst(s, sub, 0);
  }

  /** `s.split(sep)`: the pieces between the non-overlapping occurrences of
      `sep`, scanned from the left. */
  function Split(s: string, sep: string): (parts: seq<string>)
    requires |sep| > 0
    ensures |parts| >= 1
    decreases |s|
  {
    match IndexOf(s, sep, 0)
    case None => [s]
    case Some(i) => [s[..i]] + Split(s[i + |sep|..], sep)
  }

  /** `parts.join(sep)`. */
  function Join(parts: seq<string>, sep: string): string {
    if |parts| == 0 then ""
    else if |parts| == 1 then parts[0]
    else parts[0] + sep + Join(parts[1..], sep)
  }

  /** Joining the pieces back with the separator gives the original string. */
  lemma {:induction false} SplitJoin(s: string, sep: string)
    requires |sep| > 0
    ensures Join(Split(s, sep), sep) == s
    decreases |s|
  {
    var first := IndexOf(s, sep, 0);
    if first.Some? {
      var i := first.value;
      var rest := s[i + |sep|..];
      var parts := Split(rest, sep);
      SplitJoin(rest, sep);
      assert Split(s, sep) == [s[..i]] + parts;
      assert ([s[..i]] + parts)[1..] == parts;
      assert Join([s[..i]] + parts, sep) == s[..i] + sep + Join(parts, sep);
      assert s[i..i + |sep|] == sep;
      assert s == s[..i] + s[i..i + |sep|] + rest;
    }
  }

  /** No piece contains the separator. */
  lemma {:induction false} SplitPiecesAvoidSeparator(s: string, sep: string)
    requires |sep| > 0
    ensures forall k :: 0 <= k < |Split(s, sep)| ==> !Contains(Split(s, sep)[k], sep)
    decreases |s|
  {
    var first := IndexOf(s, sep, 0);
    if first.Some? {
      var i := first.value;
      var rest := s[i + |sep|..];
      SplitPiecesAvoidSeparator(rest, sep);
      IndexOfIsFirst(s, sep, 0);
      var head := s[..i];
      if Contains(head, sep) {
        var j := IndexOf(head, sep, 0).value;
        assert OccursAt(head, sep, j);
        assert head[j..j + |sep|] == s[j..j + |sep|];
        assert OccursAt(s, sep, j);
        assert false;
      }
      var parts := Split(s, sep);
      assert parts == [head] + Split(rest, sep);
      forall k | 0 <= k < |parts| ensures !Contains(parts[k], sep) {
        if k > 0 {
          assert parts[k] == Split(rest, sep)[k - 1];
        }
      }
    }
  }

  /** Without an occurrence there is a single piece, the whole string. */
  lemma SplitWithoutSeparator(s: string, sep: string)
    requires |sep| > 0
    requires IndexOf(s, sep, 0).None?
    ensures Split(s, sep) == [s]
  {
  }

  /** One step of `Split` at the first occurrence. */
  lemma SplitUnfold(s: string, sep: string, i: nat)
    requires |sep| > 0
    requires FoundAt(s, sep, 0, i)
    ensures Split(s, sep) == [s[..i]] + Split(s[i + |sep|..], sep)
  {
  }

  /** The first piece ends at the first occurrence. */
  lemma SplitHead(s: string, sep: string, k: nat)
    requires |sep| > 0
    requires FoundAt(s, sep, 0, k)
    ensures k <= |s| && Split(s, sep)[0] == s[..k]
  {
    SplitUnfold(s, sep, k);
  }

  /** The second piece is the first piece of the rest after the first
      occurrence. */
  lemma SplitSecondIsHeadOfRest(s: string, sep: string, i: nat)
    requires |sep| > 0
    requires FoundAt(s, sep, 0, i)
    ensures i + |sep| <= |s|
    ensures |Split(s, sep)| >= 2 && Split(s, sep)[1] == Split(s[i + |sep|..], sep)[0]
  {
    SplitUnfold(s, sep, i);
  }

  /** With no further occurrence, the piece after the first occurrence runs
      to the end of the string. */
  lemma SplitSecondPieceToEnd(s: string, sep: string, i: nat)
    requires |sep| > 0
    requires FoundAt(s, sep, 0, i)
    requires IndexOf(s, sep, i + |sep|).None?
    ensures |Split(s, sep)| >= 2 && Split(s, sep)[1] == s[i + |sep|..]
  {
    SplitSecondIsHeadOfRest(s, sep, i);
    SearchShift(s, sep, i + |sep|);
    SplitWithoutSeparator(s[i + |sep|..], sep);
  }

  /** The piece after the first occurrence runs up to the next occurrence. */
  lemma SplitSecondPieceToNext(s: string, sep: string, i: nat, j: nat)
    requires |sep| > 0
    requires FoundAt(s, sep, 0, i)
    requires FoundAt(s, sep, i + |sep|, j)
    ensures i + |sep| <= j
    ensures |Split(s, sep)| >= 2 && Split(s, sep)[1] == s[i + |sep|..j]
  {
    var start := i + |sep|;
    var rest := s[start..];
    SearchFrom(s, sep, start, j);
    var head := Split(rest, sep)[0];
    assert head == s[start..j] by {
      SplitHead(rest, sep, j - start);
      assert rest[..j - start] == s[start..j];
    }
    SplitSecondIsHeadOfRest(s, sep, i);
  }

  /** An occurrence found from `start` is found in the suffix at `start`,
      shifted. */
  lemma SearchFrom(s: string, sep: string, start: nat, j: nat)
    requires FoundAt(s, sep, start, j)
    ensures start <= j && j + |sep| <= |s|
    ensures FoundAt(s[start..], sep, 0, j - start)
  {
    SearchShift(s, sep, start);
  }

  /** An occurrence in a suffix is an occurrence in the whole string, shifted. */
  lemma OccursShift(s: string, sep: string, start: nat, j: nat)
    requires start <= |s|
    ensures OccursAt(s[start..], sep, j) <==> OccursAt(s, sep, start + j)
  {
    if j + |sep| <= |s| - start {
      assert s[start..][j..j + |sep|] == s[start + j..start + j + |sep|];
    }
  }

  /** Searching a suffix is searching the whole string from the suffix's start. */
  lemma SearchShift(s: string, sep: string, start: nat)
    requires start <= |s|
    ensures IndexOf(s[start..], sep, 0).None? ==> IndexOf(s, sep, start).None?
    ensures IndexOf(s[start..], sep, 0).Some? ==>
      FoundAt(s, sep, start, start + IndexOf(s[start..], sep, 0).value)
    ensures IndexOf(s, sep, start).None? ==> IndexOf(s[start..], sep, 0).None?
    ensures IndexOf(s, sep, start).Some? ==>
      start <= IndexOf(s, sep, start).value &&
      FoundAt(s[start..], sep, 0, IndexOf(s, sep, start).value - start)
  {
    var t := s[start..];
    var inSuffix := IndexOf(t, sep, 0);
    var inWhole := IndexOf(s, sep, start);
    IndexOfIsFirst(t, sep, 0);
    IndexOfIsFirst(s, sep, start);
    if inSuffix.None? {
      if inWhole.Some? {
        OccursShift(s, sep, start, inWhole.value - start);
        assert false;
      }
    } else {
      var k := inSuffix.value;
      OccursShift(s, sep, start, k);
      if inWhole.None? {
        assert false;
      } else if inWhole.value < start + k {
        OccursShift(s, sep, start, inWhole.value - start);
        assert false;
      } else if inWhole.value > start + k {
        assert false;
      }
    }
  }
}
