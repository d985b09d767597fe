/** Python string primitives the scrapers rely on: whitespace (`str.isspace`,
    the `\s` class), `str.strip`, `re.sub(r'\s+', ' ', s)`, `s[:n]`, `in`,
    `str.join`, `str.replace` of one character, and `str.lower`. */
module Text {
  import opened Seqs

  /** Python's `str.isspace` (which is also what `\s` matches in a `str` pattern). */
  predicate IsSpace(c: char)
  {
    c == ' ' || ('\t' <= c <= '\r') || ('\U{1C}' <= c <= '\U{1F}') ||
    c == '\U{85}' || c == '\U{A0}' || c == '\U{1680}' || ('\U{2000}' <= c <= '\U{200A}') ||
    c == '\U{2028}' || c == '\U{2029}' || c == '\U{202F}' || c == '\U{205F}' || c == '\U{3000}'
  }

  predicate IsDigit(c: char)
  {
    '0' <= c <= '9'
  }

  /** First position at or after `i` that is not an ASCII digit. */
  function DigitEnd(s: string, i: nat): (k: nat)
    requires i <= |s|
    ensures i <= k <= |s|
    ensures forall j :: i <= j < k ==> IsDigit(s[j])
    ensures k < |s| ==> !IsDigit(s[k])
    decreases |s| - i
  {
    if i == |s| || !IsDigit(s[i]) then i else DigitEnd(s, i + 1)
  }

  predicate AllSpace(s: string)
  {
    forall k :: 0 <= k < |s| ==> IsSpace(s[k])
  }

  /** First position at or after `i` that is not whitespace (or the end). */
  function SkipSpaces(s: string, i: nat): (j: nat)
    requires i <= |s|
    ensures i <= j <= |s|
    ensures forall k :: i <= k < j ==> IsSpace(s[k])
    ensures j < |s| ==> !IsSpace(s[j])
    decreases |s| - i
  {
    if i == |s| || !IsSpace(s[i]) then i else SkipSpaces(s, i + 1)
  }

  /** Start of the whitespace run that ends the first `j` characters. */
  function TrailingSpaceStart(s: string, j: nat): (e: nat)
    requires j <= |s|
    ensures e <= j
    ensures forall k :: e <= k < j ==> IsSpace(s[k])
    ensures e > 0 ==> !IsSpace(s[e - 1])
  {
    if j == 0 || !IsSpace(s[j - 1]) then j else TrailingSpaceStart(s, j - 1)
  }

  /** Python `s.strip()`. */
  function Strip(s: string): (r: string)
    ensures |r| <= |s|
    ensures r == [] <==> AllSpace(s)
    ensures r != [] ==> !IsSpace(r[0]) && !IsSpace(r[|r| - 1])
    ensures exists a, b :: 0 <= a <= b <= |s| && r == s[a..b] && AllSpace(s[..a]) && AllSpace(s[b..])
  {
    var a := SkipSpaces(s, 0);
    if a == |s| then
      assert s[..a] == s && s[a..] == [];
      []
    else
      var b := TrailingSpaceStart(s, |s|);
      assert !IsSpace(s[a]);
      assert b > a;
      assert AllSpace(s[..a]) && AllSpace(s[b..]);
      assert !IsSpace(s[a..b][0]);
      s[a..b]
  }

  /** A text with no whitespace except single ' ' characters, never two in a row:
      what `re.sub(r'\s+', ' ', s)` leaves. */
  predicate Collapsed(s: string)
  {
    && (forall k :: 0 <= k < |s| && IsSpace(s[k]) ==> s[k] == ' ')
    && (forall k :: 0 <= k < |s| - 1 ==> !(IsSpace(s[k]) && IsSpace(s[k + 1])))
  }

  /** Any piece of a collapsed text is collapsed. */
  lemma CollapsedSlice(s: string, a: nat, b: nat)
    requires a <= b <= |s| && Collapsed(s)
    ensures Collapsed(s[a..b])
  {
    assert forall k :: 0 <= k < b - a ==> s[a..b][k] == s[a + k];
  }

  /** The characters of `s` that are not whitespace, in order. */
  function NonSpace(s: string): string
  {
    if s == [] then [] else (if IsSpace(s[0]) then [] else [s[0]]) + NonSpace(s[1..])
  }

  /** Python `re.sub(r'\s+', ' ', s)`: every maximal whitespace run becomes one space. */
  function CollapseSpaces(s: string): (r: string)
    ensures Collapsed(r)
    ensures NonSpace(r) == NonSpace(s)
    ensures |r| <= |s|
    ensures r == [] <==> s == []
    ensures r != [] ==> (IsSpace(r[0]) <==> IsSpace(s[0]))
    decreases |s|
  {
    if s == [] then []
    else if IsSpace(s[0]) then
      var j := SkipSpaces(s, 0);
      var rest := CollapseSpaces(s[j..]);
      NonSpaceOfSpaces(s[..j]);
      NonSpaceAppend(s[..j], s[j..]);
      assert s[..j] + s[j..] == s;
      NonSpaceAppend([' '], rest);
      CollapsedCons(' ', rest);
      [' '] + rest
    else
      var rest := CollapseSpaces(s[1..]);
      NonSpaceAppend([s[0]], rest);
      CollapsedCons(s[0], rest);
      [s[0]] + rest
  }

  /** Putting a character in front of a collapsed text keeps it collapsed unless
      it makes two spaces in a row or is whitespace other than ' '. */
  lemma CollapsedCons(c: char, rest: string)
    requires Collapsed(rest)
    requires IsSpace(c) ==> c == ' ' && (rest == [] || !IsSpace(rest[0]))
    ensures Collapsed([c] + rest)
  {
    assert forall k :: 1 <= k < |rest| + 1 ==> ([c] + rest)[k] == rest[k - 1];
  }

  lemma {:induction false} NonSpaceAppend(a: string, b: string)
    ensures NonSpace(a + b) == NonSpace(a) + NonSpace(b)
  {
    if a != [] {
      assert (a + b)[0] == a[0] && (a + b)[1..] == a[1..] + b;
      NonSpaceAppend(a[1..], b);
    } else {
      assert a + b == b;
    }
  }

  lemma {:induction false} NonSpaceOfSpaces(a: string)
    requires AllSpace(a)
    ensures NonSpace(a) == []
  {
    if a != [] {
      NonSpaceOfSpaces(a[1..]);
    }
  }

  /** A non-empty text with no whitespace at either end: what `strip` leaves
      of a text that is not blank. */
  predicate Trimmed(t: string)
  {
    t != [] && !IsSpace(t[0]) && !IsSpace(t[|t| - 1])
  }

  /** A character absent from a text is absent from the stripped text. */
  lemma StripNoChar(s: string, c: char)
    requires c !in s
    ensures c !in Strip(s)
  {
  }

  /** A text without whitespace at either end is its own strip. */
  lemma StripTrimmed(s: string)
    requires Trimmed(s)
    ensures Strip(s) == s
  {
    assert SkipSpaces(s, 0) == 0;
    assert TrailingSpaceStart(s, |s|) == |s|;
    assert s[0..|s|] == s;
  }

  /** Stripping removes whitespace only: the other characters stay, in order. */
  lemma StripNonSpace(s: string)
    ensures NonSpace(Strip(s)) == NonSpace(s)
  {
    var a, b :| 0 <= a <= b <= |s| && Strip(s) == s[a..b] && AllSpace(s[..a]) && AllSpace(s[b..]);
    var front, mid, back := s[..a], s[a..b], s[b..];
    assert s == front + mid + back;
    NonSpaceAppend(front + mid, back);
    NonSpaceAppend(front, mid);
    NonSpaceOfSpaces(front);
    NonSpaceOfSpaces(back);
    assert NonSpace(s) == NonSpace(front) + NonSpace(mid) + NonSpace(back);
  }

  /** Where the whitespace run ending the first `|a| + j` characters of `a + b`
      starts, when it lies inside `b`. */
  lemma {:induction false} TrailingShift(a: string, b: string, j: nat)
    requires j <= |b| && b != [] && !IsSpace(b[0]) && 0 < j
    ensures TrailingSpaceStart(a + b, |a| + j) == |a| + TrailingSpaceStart(b, j)
    decreases j
  {
    assert (a + b)[|a| + j - 1] == b[j - 1];
    if IsSpace(b[j - 1]) {
      assert j > 1;
      TrailingShift(a, b, j - 1);
    }
  }

  /** Stripping text that starts with a non-space only cuts its tail. */
  lemma StripTail(s: string)
    requires s != [] && !IsSpace(s[0])
    ensures Strip(s) == s[..TrailingSpaceStart(s, |s|)]
  {
    assert SkipSpaces(s, 0) == 0;
  }

  lemma AppendAssoc(a: string, b: string, c: string)
    ensures a + b + c == a + (b + c)
  {
  }

  /** A prefix reaching into the second part of a concatenation. */
  lemma PrefixOfAppend(a: string, b: string, n: nat)
    requires n <= |b|
    ensures (a + b)[..|a| + n] == a + b[..n]
  {
  }

  /** Text that starts with a non-space keeps its front when stripped together
      with a tail that also starts with a non-space. */
  lemma StripFront(a: string, b: string)
    requires a == [] || !IsSpace(a[0])
    requires b != [] && !IsSpace(b[0])
    ensures Strip(a + b) == a + Strip(b)
  {
    var s := a + b;
    assert s[0] == (if a == [] then b[0] else a[0]);
    StripTail(s);
    StripTail(b);
    TrailingShift(a, b, |b|);
    var e := TrailingSpaceStart(b, |b|);
    assert |s| == |a| + |b|;
    PrefixOfAppend(a, b, e);
  }

  /** `t.strip()` when that is not empty: the filter of
      `[t.strip() for t in parts if t.strip()]`. */
  function NonBlank(t: string): (r: Option<string>)
    ensures r.None? <==> AllSpace(t)
    ensures r.Some? ==> r.value == Strip(t) && r.value != []
    ensures r.Some? ==> Trimmed(r.value)
  {
    var u := Strip(t);
    if u == [] then None else Some(u)
  }

  /** Every text `[t.strip() for t in parts if t.strip()]` keeps is non-empty
      and has no whitespace at its ends. */
  lemma {:induction false} NonBlanksStripped(parts: seq<string>)
    ensures forall i :: 0 <= i < |FilterMap(NonBlank, parts)| ==> Trimmed(FilterMap(NonBlank, parts)[i])
  {
    if parts != [] {
      NonBlanksStripped(parts[..|parts| - 1]);
      var last := NonBlank(parts[|parts| - 1]);
      assert FilterMap(NonBlank, parts) == FilterMap(NonBlank, parts[..|parts| - 1]) + Emit(last);
    }
  }

  /** A text is blank exactly when it has no character outside whitespace. */
  lemma {:induction false} AllSpaceNonSpace(s: string)
    ensures AllSpace(s) <==> NonSpace(s) == []
  {
    if s != [] {
      AllSpaceNonSpace(s[1..]);
      if AllSpace(s[1..]) && IsSpace(s[0]) {
        assert forall k :: 1 <= k < |s| ==> s[k] == s[1..][k - 1];
      }
      if !IsSpace(s[0]) {
        assert NonSpace(s)[0] == s[0];
      }
    }
  }

  /** Collapsing leaves an already collapsed text unchanged, so collapsing twice
      is collapsing once. */
  lemma {:induction false} CollapseCollapsed(s: string)
    requires Collapsed(s)
    ensures CollapseSpaces(s) == s
    decreases |s|
  {
    if s != [] {
      assert Collapsed(s[1..]);
      if IsSpace(s[0]) {
        var j := SkipSpaces(s, 0);
        assert j == 1 by {
          if |s| > 1 { assert !IsSpace(s[1]); }
        }
        CollapseCollapsed(s[1..]);
      } else {
        CollapseCollapsed(s[1..]);
      }
    }
  }

  lemma CollapseIdempotent(s: string)
    ensures CollapseSpaces(CollapseSpaces(s)) == CollapseSpaces(s)
  {
    CollapseCollapsed(CollapseSpaces(s));
  }

  /** No whitespace at all. */
  predicate Solid(w: string)
  {
    forall k :: 0 <= k < |w| ==> !IsSpace(w[k])
  }

  /** The head of a text without whitespace is no whitespace, and its tail has none. */
  lemma SolidParts(w: string)
    requires Solid(w) && w != []
    ensures !IsSpace(w[0]) && Solid(w[1..])
  {
    forall k | 0 <= k < |w| - 1 ensures !IsSpace(w[1..][k]) {
      assert w[1..][k] == w[k + 1];
    }
  }

  /** A character other than whitespace is copied through. */
  lemma CollapseCons(c: char, t: string)
    requires !IsSpace(c)
    ensures CollapseSpaces([c] + t) == [c] + CollapseSpaces(t)
  {
    assert ([c] + t)[1..] == t;
  }

  /** Text without whitespace is copied through unchanged. */
  lemma {:induction false} CollapseSolid(w: string, t: string)
    requires Solid(w)
    ensures CollapseSpaces(w + t) == w + CollapseSpaces(t)
    decreases |w|
  {
    if w == [] {
      assert w + t == t;
    } else {
      var rest, c := w[1..], CollapseSpaces(t);
      SolidParts(w);
      calc {
        CollapseSpaces(w + t);
        { assert w + t == [w[0]] + (rest + t); }
        CollapseSpaces([w[0]] + (rest + t));
        { CollapseCons(w[0], rest + t); }
        [w[0]] + CollapseSpaces(rest + t);
        { CollapseSolid(rest, t); }
        [w[0]] + (rest + c);
        { assert w == [w[0]] + rest; }
        w + c;
      }
    }
  }

  /** A whole whitespace run, however long and of whatever whitespace, becomes
      one ' '. */
  lemma CollapseRun(sp: string, t: string)
    requires sp != [] && AllSpace(sp)
    requires t == [] || !IsSpace(t[0])
    ensures CollapseSpaces(sp + t) == " " + CollapseSpaces(t)
  {
    var s := sp + t;
    assert s[0] == sp[0];
    var j := SkipSpaces(s, 0);
    assert forall k :: 0 <= k < |sp| ==> IsSpace(s[k]);
    assert j >= |sp|;
    assert j <= |sp| by {
      if |sp| < |s| { assert s[|sp|] == t[0]; }
    }
    assert s[j..] == t;
  }

  /** Every maximal whitespace run between two pieces of text becomes exactly one
      space: `re.sub(r'\s+', ' ', w + sp + t)` is `w + " "` followed by the
      collapse of `t`. */
  lemma CollapseWordRun(w: string, sp: string, t: string)
    requires Solid(w) && sp != [] && AllSpace(sp)
    requires t == [] || !IsSpace(t[0])
    ensures CollapseSpaces(w + sp + t) == w + " " + CollapseSpaces(t)
  {
    var c := CollapseSpaces(t);
    calc {
      CollapseSpaces(w + sp + t);
      { AppendAssoc(w, sp, t); }
      CollapseSpaces(w + (sp + t));
      { CollapseSolid(w, sp + t); }
      w + CollapseSpaces(sp + t);
      { CollapseRun(sp, t); }
      w + (" " + c);
      { AppendAssoc(w, " ", c); }
      w + " " + c;
    }
  }

  /** Python `s[:n]`. */
  function Take(s: string, n: nat): (r: string)
    ensures |r| == if |s| <= n then |s| else n
    ensures r <= s
  {
    if |s| <= n then s else s[..n]
  }

  /** Python `s[lo:hi]` for non-negative bounds: the bounds are clipped to the text. */
  function Slice(s: string, lo: nat, hi: nat): (r: string)
    ensures |r| <= |s|
    ensures lo <= hi <= |s| ==> r == s[lo..hi]
    ensures hi <= lo || |s| <= lo ==> r == []
  {
    var a := if lo <= |s| then lo else |s|;
    var b := if hi <= |s| then hi else |s|;
    if a <= b then s[a..b] else []
  }

  /** `sub` occurs in `s` at position `i`. */
  predicate OccursAt(s: string, sub: string, i: nat)
  {
    i + |sub| <= |s| && s[i..i + |sub|] == sub
  }

  /** Python `sub in s`. */
  predicate Contains(s: string, sub: string)
  {
    exists i :: 0 <= i <= |s| && OccursAt(s, sub, i)
  }

  /** A text lacking one of the characters of `sub` does not contain `sub`. */
  lemma NotContains(s: string, sub: string, c: char)
    requires c in sub && c !in s
    ensures !Contains(s, sub)
  {
  }

  /** Python `sep.join(parts)`. */
  function Join(parts: seq<string>, sep: string): string
  {
    if parts == [] then []
    else if |parts| == 1 then parts[0]
    else parts[0] + sep + Join(parts[1..], sep)
  }

  /** Joining a part in front of a non-empty list puts the separator between them. */
  lemma JoinCons(x: string, rest: seq<string>, sep: string)
    requires rest != []
    ensures Join([x] + rest, sep) == x + sep + Join(rest, sep)
  {
    assert ([x] + rest)[0] == x && ([x] + rest)[1..] == rest;
  }

  /** A joined text starts with the first part, so it is blank-free at the front
      when the first part is. */
  lemma JoinStartsWithFirst(parts: seq<string>, sep: string)
    requires parts != []
    ensures parts[0] <= Join(parts, sep)
  {
  }

  /** Python `s.split(c)`: the pieces between the occurrences of `c`. */
  function SplitOn(s: string, c: char): (parts: seq<string>)
    ensures |parts| >= 1
    ensures forall i :: 0 <= i < |parts| ==> c !in parts[i]
    ensures Join(parts, [c]) == s
    decreases |s|
  {
    if c !in s then [s]
    else
      var i := IndexOf(s, c);
      assert s == s[..i] + [c] + s[i + 1..];
      [s[..i]] + SplitOn(s[i + 1..], c)
  }

  /** Position of the first `c` in `s`. */
  function IndexOf(s: string, c: char): (i: nat)
    requires c in s
    ensures i < |s| && s[i] == c && c !in s[..i]
  {
    if s[0] == c then 0 else 1 + IndexOf(s[1..], c)
  }

  /** The test "is not `c`". */
  function Except(c: char): (char -> bool)
  {
    (x: char) => x != c
  }

  /** All of `s` except the characters equal to `c`: Python `s.replace(c, "")`.
      It keeps every other character, in order and as often as it occurs: it
      is the filter of `s` by "is not `c`". */
  function RemoveChar(s: string, c: char): (r: string)
    ensures |r| <= |s|
    ensures forall k :: 0 <= k < |r| ==> r[k] != c
    ensures forall k :: 0 <= k < |s| && s[k] != c ==> s[k] in r
    ensures r == Filter(Except(c), s)
  {
    if s == [] then []
    else
      FilterCons(Except(c), s);
      (if s[0] == c then [] else [s[0]]) + RemoveChar(s[1..], c)
  }

  /** Python `str.lower` on one character, for the Basic Latin, Latin-1 and
      Latin Extended-A blocks (the alphabets of the Latvian pages). Other
      characters are left as they are. */
  function LowerChar(c: char): (r: string)
    ensures 1 <= |r| <= 2
  {
    if 'A' <= c <= 'Z' then [(c as int + 32) as char]
    else if ('À' <= c <= 'Þ') && c != '×' then [(c as int + 32) as char]
    else if c == 'İ' then ['i', '\U{307}']
    else if ('Ā' <= c <= 'ķ' || 'Ŋ' <= c <= 'ŷ') && (c as int) % 2 == 0 then
      [(c as int + 1) as char]
    else if ('Ĺ' <= c <= 'ň' || 'Ź' <= c <= 'ž') && (c as int) % 2 == 1 then
      [(c as int + 1) as char]
    else if c == 'Ÿ' then ['ÿ']
    else [c]
  }

  /** Python `s.lower()` (see `LowerChar` for the characters covered). */
  function Lower(s: string): (r: string)
    ensures |s| <= |r| <= 2 * |s|
  {
    if s == [] then [] else LowerChar(s[0]) + Lower(s[1..])
  }

  lemma {:induction false} LowerAppend(a: string, b: string)
    ensures Lower(a + b) == Lower(a) + Lower(b)
  {
    if a != [] {
      assert (a + b)[0] == a[0] && (a + b)[1..] == a[1..] + b;
      LowerAppend(a[1..], b);
    } else {
      assert a + b == b;
    }
  }
}
