/**
 * The ECMAScript string operations the form's schema relies on:
 * `String.prototype.trim` and `replace(/\s/g, '')`. Both use the same
 * character class, WhiteSpace plus LineTerminator.
 */
module JsText {

  /** WhiteSpace (tab, vertical tab, form feed, space, no-break space, the byte
      order mark, the other space separators) and LineTerminator (line feed,
      carriage return, line and paragraph separators). */
  predicate IsWhitespace(c: char) {
    var n := c as int;
    n == 0x09 || n == 0x0A || n == 0x0B || n == 0x0C || n == 0x0D || n == 0x20
    || n == 0xA0 || n == 0x1680 || (0x2000 <= n <= 0x200A) || n == 0x2028 || n == 0x2029
    || n == 0x202F || n == 0x205F || n == 0x3000 || n == 0xFEFF
  }

  predicate AllWhitespace(s: string) {
    forall i :: 0 <= i < |s| ==> IsWhitespace(s[i])
  }

  predicate NoWhitespace(s: string) {
    forall i :: 0 <= i < |s| ==> !IsWhitespace(s[i])
  }

  /** Neither end of `t` is whitespace. */
  predicate TightEnds(t: string) {
    t == [] || (!IsWhitespace(t[0]) && !IsWhitespace(t[|t| - 1]))
  }

  /** Scanning forward from `i`: the first position that is not whitespace,
      or `|s|` when there is none. */
  function SkipLeading(s: string, i: nat): (k: nat)
    requires i <= |s|
    ensures i <= k <= |s|
    ensures k < |s| ==> !IsWhitespace(s[k])
    ensures forall j :: i <= j < k ==> IsWhitespace(s[j])
    decreases |s| - i
  {
    if i == |s| || !IsWhitespace(s[i]) then i else SkipLeading(s, i + 1)
  }

  /** Scanning backward from `hi` down to `lo`: the end of the last character
      that is not whitespace, or `lo` when there is none. */
  function SkipTrailing(s: string, lo: nat, hi: nat): (k: nat)
    requires lo <= hi <= |s|
    ensures lo <= k <= hi
    ensures lo < k ==> !IsWhitespace(s[k - 1])
    ensures forall j :: k <= j < hi ==> IsWhitespace(s[j])
    decreases hi
  {
    if hi == lo || !IsWhitespace(s[hi - 1]) then hi else SkipTrailing(s, lo, hi - 1)
  }

  /** `s.trim()`: the part between the leading and the trailing whitespace. */
  function Trim(s: string): string {
    var i := SkipLeading(s, 0);
    s[i..SkipTrailing(s, i, |s|)]
  }

  /** Trim strips exactly the whitespace around a core whose ends are not
      whitespace: `Trim(s)` always has such a decomposition of `s`. */
  lemma TrimSplitsOffWhitespace(s: string)
    ensures TightEnds(Trim(s))
    ensures exists i, j :: 0 <= i <= j <= |s| && Trim(s) == s[i..j]
              && AllWhitespace(s[..i]) && AllWhitespace(s[j..])
  {
    var i := SkipLeading(s, 0);
    var j := SkipTrailing(s, i, |s|);
    var t := s[i..j];
    if t != [] {
      assert t[0] == s[i] && t[|t| - 1] == s[j - 1];
    }
    assert AllWhitespace(s[..i]) && AllWhitespace(s[j..]);
  }

  /** The converse: whitespace around a tight core is exactly what trim removes. */
  lemma TrimOfPadded(lead: string, t: string, trail: string)
    requires AllWhitespace(lead) && AllWhitespace(trail) && TightEnds(t)
    ensures Trim(lead + t + trail) == t
  {
    var s := lead + t + trail;
    var i := SkipLeading(s, 0);
    var j := SkipTrailing(s, i, |s|);
    if t == [] {
      assert forall k :: 0 <= k < |s| ==> IsWhitespace(s[k]) by {
        forall k | 0 <= k < |s| ensures IsWhitespace(s[k]) {
          if k < |lead| { assert s[k] == lead[k]; } else { assert s[k] == trail[k - |lead|]; }
        }
      }
      assert i == |s|;
    } else {
      assert s[|lead|] == t[0];
      assert forall k :: 0 <= k < |lead| ==> s[k] == lead[k];
      assert i == |lead|;
      assert s[|lead| + |t| - 1] == t[|t| - 1];
      assert forall k :: |lead| + |t| <= k < |s| ==> s[k] == trail[k - |lead| - |t|];
      assert j == |lead| + |t|;
      assert s[i..j] == t;
    }
  }

  /** A string trims to "" exactly when it is all whitespace. */
  lemma TrimEmptyIffAllWhitespace(s: string)
    ensures Trim(s) == [] <==> AllWhitespace(s)
  {
    if AllWhitespace(s) {
      assert s == s + [] + [];
      TrimOfPadded(s, [], []);
    } else {
      TrimSplitsOffWhitespace(s);
    }
  }

  /** Trimming twice is trimming once. */
  lemma TrimIdempotent(s: string)
    ensures Trim(Trim(s)) == Trim(s)
  {
    var t := Trim(s);
    TrimSplitsOffWhitespace(s);
    assert [] + t + [] == t;
    TrimOfPadded([], t, []);
  }

  /** `s[i..].replace(/\s/g, '')`: every whitespace character from `i` on
      removed, the others kept in order. */
  function StripFrom(s: string, i: nat): (r: string)
    requires i <= |s|
    ensures NoWhitespace(r)
    ensures |r| <= |s| - i
    decreases |s| - i
  {
    if i == |s| then []
    else (if IsWhitespace(s[i]) then [] else [s[i]]) + StripFrom(s, i + 1)
  }

  /** `s.replace(/\s/g, '')`. */
  function StripWhitespace(s: string): string {
    StripFrom(s, 0)
  }

  /** Stripping changes nothing in a string without whitespace. */
  lemma {:induction false} StripFromKeepsClean(s: string, i: nat)
    requires i <= |s| && NoWhitespace(s)
    ensures StripFrom(s, i) == s[i..]
    decreases |s| - i
  {
    if i < |s| {
      StripFromKeepsClean(s, i + 1);
      assert [s[i]] + s[i + 1..] == s[i..];
    }
  }

  /** Stripping works piecewise: from position `i` of `a + b` it strips the
      rest of `a`, then all of `b`. */
  lemma {:induction false} StripFromAppend(a: string, b: string, i: nat)
    requires i <= |a|
    ensures StripFrom(a + b, i) == StripFrom(a, i) + StripWhitespace(b)
    decreases |a| - i
  {
    if i == |a| {
      StripFromShift(a, b, 0);
    } else {
      var h := if IsWhitespace(a[i]) then [] else [a[i]];
      assert (a + b)[i] == a[i];
      assert StripFrom(a + b, i) == h + StripFrom(a + b, i + 1);
      StripFromAppend(a, b, i + 1);
      assert h + (StripFrom(a, i + 1) + StripWhitespace(b)) == (h + StripFrom(a, i + 1)) + StripWhitespace(b);
    }
  }

  /** Stripping `a + b` from position `|a| + i` is stripping `b` from `i`. */
  lemma {:induction false} StripFromShift(a: string, b: string, i: nat)
    requires i <= |b|
    ensures StripFrom(a + b, |a| + i) == StripFrom(b, i)
    decreases |b| - i
  {
    if i < |b| {
      assert (a + b)[|a| + i] == b[i];
      StripFromShift(a, b, i + 1);
    }
  }

  /** `replace(/\s/g, '')` keeps every other character, in order: it distributes
      over concatenation and drops or keeps a single character by its class. */
  lemma StripWhitespaceAppend(a: string, b: string)
    ensures StripWhitespace(a + b) == StripWhitespace(a) + StripWhitespace(b)
  {
    StripFromAppend(a, b, 0);
  }

  lemma StripWhitespaceOfChar(c: char)
    ensures StripWhitespace([c]) == if IsWhitespace(c) then [] else [c]
  {
  }

  lemma StripWhitespaceKeepsClean(s: string)
    requires NoWhitespace(s)
    ensures StripWhitespace(s) == s
  {
    StripFromKeepsClean(s, 0);
  }
}
