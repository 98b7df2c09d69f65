/** The string helpers of src/Util.cpp: `strstripchar`, an erase-remove of one
    character from a string, and `strprestod`, which strips quotes and
    thousands separators before a number is parsed. */
module UtilStrings {

  const QUOTE: char := '"'
  const COMMA: char := ','

  /** `s` with every occurrence of `c` removed, the other characters kept in
      their order (the filter of `s` by "is not `c`"). */
  function Without(s: string, c: char): (r: string)
    ensures |r| <= |s|
    ensures forall x :: x in r ==> x in s && x != c
  {
    if |s| == 0 then []
    else if s[|s| - 1] == c then Without(s[..|s| - 1], c)
    else Without(s[..|s| - 1], c) + [s[|s| - 1]]
  }

  /** Removing distributes over concatenation: what is kept keeps its order. */
  lemma {:induction false} WithoutConcat(a: string, b: string, c: char)
    ensures Without(a + b, c) == Without(a, c) + Without(b, c)
    decreases |b|
  {
    if |b| == 0 {
      assert a + b == a;
    } else {
      var b' := b[..|b| - 1];
      assert (a + b)[..|a + b| - 1] == a + b';
      WithoutConcat(a, b', c);
    }
  }

  /** Exactly the occurrences of `c` go; every other character stays as often as it was. */
  lemma {:induction false} WithoutCounts(s: string, c: char)
    ensures multiset(Without(s, c)) == multiset(s)[c := 0]
  {
    if |s| > 0 {
      var s' := s[..|s| - 1];
      assert s == s' + [s[|s| - 1]];
      WithoutCounts(s', c);
    }
  }

  /** A string without `c` is left as it is. */
  lemma {:induction false} WithoutAbsent(s: string, c: char)
    requires c !in s
    ensures Without(s, c) == s
  {
    if |s| > 0 {
      var s' := s[..|s| - 1];
      assert s == s' + [s[|s| - 1]];
      WithoutAbsent(s', c);
    }
  }

  /** `std::remove` followed by the caller's `erase`: compacts the characters
      other than `c` to the front of `a` and returns the new logical end. */
  method RemoveChar(a: array<char>, c: char) returns (end: nat)
    modifies a
    ensures end <= a.Length
    ensures a[..end] == Without(old(a[..]), c)
  {
    end := 0;
    var i := 0;
    while i < a.Length
      invariant 0 <= end <= i <= a.Length
      invariant a[..end] == Without(old(a[..i]), c)
      invariant forall k :: i <= k < a.Length ==> a[k] == old(a[k])
    {
      assert old(a[..i + 1])[..i] == old(a[..i]);
      assert a[i] == old(a[i]);
      if a[i] != c {
        a[end] := a[i];
        end := end + 1;
      }
      i := i + 1;
    }
    assert old(a[..i]) == old(a[..]);
  }

  /** `strstripchar(original, target)`: the string with every `target` erased. */
  method StripChar(original: string, target: char) returns (r: string)
    ensures r == Without(original, target)
  {
    var a := new char[|original|](i requires 0 <= i < |original| => original[i]);
    assert a[..] == original;
    var end := RemoveChar(a, target);
    r := a[..end];
  }

  /** What `strprestod` leaves of a string: quotes, then commas, removed. */
  function Prestod(s: string): string
  {
    Without(Without(s, QUOTE), COMMA)
  }

  /** `strprestod(original)`: strips `"` and then `,` from a numeric field. */
  method Strprestod(original: string) returns (r: string)
    ensures r == Prestod(original)
    ensures QUOTE !in r && COMMA !in r
  {
    r := StripChar(original, QUOTE);
    r := StripChar(r, COMMA);
  }

  /** A string with neither a quote nor a comma is not changed by `strprestod`. */
  lemma PrestodNoop(s: string)
    requires QUOTE !in s && COMMA !in s
    ensures Prestod(s) == s
  {
    WithoutAbsent(s, QUOTE);
    WithoutAbsent(s, COMMA);
  }

  /** Stripping twice is stripping once. */
  lemma PrestodIdempotent(s: string)
    ensures Prestod(Prestod(s)) == Prestod(s)
  {
    PrestodNoop(Prestod(s));
  }

  /** The documented example: `39,112.3` becomes `39112.3`. */
  lemma PrestodExample()
    ensures Prestod("39,112.3") == "39112.3"
  {
    WithoutAbsent("39,112.3", QUOTE);
    WithoutConcat("39", ",112.3", COMMA);
    WithoutConcat(",", "112.3", COMMA);
    WithoutAbsent("39", COMMA);
    WithoutAbsent("112.3", COMMA);
    assert "39,112.3" == "39" + ",112.3";
    assert ",112.3" == "," + "112.3";
  }
}
