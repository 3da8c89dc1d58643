/** The Python string and list built-ins the backend relies on:
    `str.strip`, `str.lower`, `list.index`, and the character classes of its
    regular expressions. */
module PyText {
  import opened Common

  /** `str.isspace` for one character: the characters Python strips by default. */
  predicate IsSpace(c: char)
  {
    c == ' ' || c == '\t' || c == '\n' || c == '\r' || c == '\U{0B}' || c == '\U{0C}'
    || ('\U{1C}' <= c <= '\U{1F}') || c == '\U{85}' || c == '\U{A0}' || c == '\U{1680}'
    || ('\U{2000}' <= c <= '\U{200A}') || c == '\U{2028}' || c == '\U{2029}' || c == '\U{202F}'
    || c == '\U{205F}' || c == '\U{3000}'
  }

  predicate AllSpace(s: string)
  {
    forall k :: 0 <= k < |s| ==> IsSpace(s[k])
  }

  /** Neither end of `t` is white space (the empty string qualifies). */
  predicate Trimmed(t: string)
  {
    t == [] || (!IsSpace(t[0]) && !IsSpace(t[|t| - 1]))
  }

  /** The scan of `lstrip`: from position `i`, the first position that is not
      white space, or `|s|`. */
  function Lo(s: string, i: nat): (r: nat)
    requires i <= |s|
    ensures i <= r <= |s|
    ensures forall k :: i <= k < r ==> IsSpace(s[k])
    ensures r < |s| ==> !IsSpace(s[r])
    decreases |s| - i
  {
    if i < |s| && IsSpace(s[i]) then Lo(s, i + 1) else i
  }

  /** The scan of `rstrip`: from end `j` back to `lo`, the end of the last
      character that is not white space, or `lo`. */
  function Hi(s: string, lo: nat, j: nat): (r: nat)
    requires lo <= j <= |s|
    ensures lo <= r <= j
    ensures forall k :: r <= k < j ==> IsSpace(s[k])
    ensures r > lo ==> !IsSpace(s[r - 1])
  {
    if j > lo && IsSpace(s[j - 1]) then Hi(s, lo, j - 1) else j
  }

  /** `str.strip()`: the slice left once the white space at both ends is dropped. */
  function Strip(s: string): (r: string)
  {
    var lo := Lo(s, 0);
    s[lo..Hi(s, lo, |s|)]
  }

  /** What `strip` keeps is a slice `s[i..i + |r|]` of its input whose ends
      are not white space and whose surroundings are all white space. */
  lemma StripCore(s: string)
    ensures Trimmed(Strip(s))
    ensures var r, i := Strip(s), Lo(s, 0);
            i + |r| <= |s| && r == s[i..i + |r|] && AllSpace(s[..i]) && AllSpace(s[i + |r|..])
  {
    var lo := Lo(s, 0);
    var hi := Hi(s, lo, |s|);
    assert AllSpace(s[..lo]) by {
      forall k | 0 <= k < lo ensures IsSpace(s[..lo][k]) {
        assert s[..lo][k] == s[k];
      }
    }
    assert AllSpace(s[hi..]) by {
      forall k | 0 <= k < |s| - hi ensures IsSpace(s[hi..][k]) {
        assert s[hi..][k] == s[hi + k];
      }
    }
  }

  /** Stripping twice is stripping once. */
  lemma StripIdempotent(s: string)
    ensures Strip(Strip(s)) == Strip(s)
  {
    StripCore(s);
    assert [] + Strip(s) + [] == Strip(s);
    StripOfPadded([], Strip(s), []);
  }

  /** `strip` is determined by the decomposition: whatever white space
      surrounds a core whose ends are not white space, the core is the result. */
  lemma StripOfPadded(a: string, t: string, b: string)
    requires AllSpace(a) && AllSpace(b) && Trimmed(t)
    ensures Strip(a + t + b) == t
  {
    var s := a + t + b;
    forall k | 0 <= k < |a| ensures IsSpace(s[k]) {
      assert s[k] == a[k];
    }
    forall k | |a| + |t| <= k < |s| ensures IsSpace(s[k]) {
      assert s[k] == b[k - |a| - |t|];
    }
    var lo := Lo(s, 0);
    if t == [] {
      assert lo == |s|;
      assert s[|s|..|s|] == [];
    } else {
      assert s[|a|] == t[0];
      assert lo == |a|;
      var hi := Hi(s, lo, |s|);
      assert s[|a| + |t| - 1] == t[|t| - 1];
      assert hi == |a| + |t|;
      assert s[lo..hi] == t;
    }
  }

  predicate IsAsciiUpper(c: char) { 'A' <= c <= 'Z' }
  predicate IsAsciiLetter(c: char) { 'a' <= c <= 'z' || IsAsciiUpper(c) }
  predicate IsAsciiDigit(c: char) { '0' <= c <= '9' }

  /** The capital letters of Latin Extended-A, Latin Extended-B's `Ơ` and `Ư`,
      and Latin Extended Additional (the block of the Vietnamese letters with
      tone marks) whose lower-case letter is the next code point. */
  predicate PairedCapital(n: int)
  {
    || (0x100 <= n <= 0x12F && n % 2 == 0)
    || (0x132 <= n <= 0x137 && n % 2 == 0)
    || (0x139 <= n <= 0x148 && n % 2 == 1)
    || (0x14A <= n <= 0x177 && n % 2 == 0)
    || (0x179 <= n <= 0x17E && n % 2 == 1)
    || n == 0x1A0 || n == 0x1AF
    || (0x1E00 <= n <= 0x1E95 && n % 2 == 0)
    || (0x1EA0 <= n <= 0x1EFF && n % 2 == 0)
  }

  /** `str.lower()` on one character of the Latin blocks: ASCII and Latin-1
      capitals move by 32 (the multiplication sign is no letter), the paired
      capitals to their neighbour, `Ÿ` to `ÿ`, the capital sharp s U+1E9E to
      `ß`; every other character is kept. One exception: U+0130 (`İ`), which
      Python lowers to two characters ("i" and U+0307), is kept as it is. */
  function LowerChar(c: char): (l: char)
    ensures 'A' <= c <= 'Z' ==> l as int == c as int + 32
    ensures !IsAsciiUpper(l)
  {
    var n := c as int;
    if IsAsciiUpper(c) || (0xC0 <= n <= 0xDE && n != 0xD7) then (n + 32) as char
    else if PairedCapital(n) then (n + 1) as char
    else if n == 0x178 then 0xFF as char
    else if n == 0x1E9E then 0xDF as char
    else c
  }

  /** `str.lower()`, character by character through `LowerChar`; unlike
      Python it keeps the length of a string holding U+0130. */
  function Lower(s: string): (r: string)
    ensures |r| == |s|
    ensures forall k :: 0 <= k < |s| ==> r[k] == LowerChar(s[k])
  {
    if s == [] then [] else [LowerChar(s[0])] + Lower(s[1..])
  }

  /** Character-wise comparison under `LowerChar`. */
  predicate SameIgnoringCase(a: string, b: string)
  {
    |a| == |b| && forall k :: 0 <= k < |a| ==> LowerChar(a[k]) == LowerChar(b[k])
  }

  lemma LowerEquality(a: string, b: string)
    ensures SameIgnoringCase(a, b) <==> Lower(a) == Lower(b)
  {
    if Lower(a) == Lower(b) {
      forall k | 0 <= k < |a| ensures LowerChar(a[k]) == LowerChar(b[k]) {
        assert Lower(a)[k] == Lower(b)[k];
      }
    }
  }

  lemma LowerHasNoUpper(s: string, k: nat)
    requires k < |s|
    ensures !IsAsciiUpper(Lower(s)[k])
  {
  }

  /** `list.index(x)`: the first position holding `x`, or `None` where Python raises ValueError. */
  function IndexOf<T(==)>(xs: seq<T>, x: T): (r: Option<nat>)
    ensures r.None? <==> x !in xs
    ensures r.Some? ==> r.value < |xs| && xs[r.value] == x
                        && forall k :: 0 <= k < r.value ==> xs[k] != x
  {
    if xs == [] then None
    else if xs[0] == x then Some(0)
    else match IndexOf(xs[1..], x)
         case None => None
         case Some(i) => Some(i + 1)
  }
}
