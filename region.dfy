/** The `region` label of a row: `place.str.split(',').str[-1].str.strip()`,
    the text after the last comma of the place name, without surrounding
    whitespace. */
module Region {

  /** Python's `str.isspace()` for one character, the set `str.strip()`
      removes when called without arguments. */
  predicate IsSpace(c: char) {
    var k := c as int;
    (9 <= k <= 13) || (28 <= k <= 32) || k == 0x85 || k == 0xA0 || k == 0x1680 ||
    (0x2000 <= k <= 0x200A) || k == 0x2028 || k == 0x2029 || k == 0x202F || k == 0x205F || k == 0x3000
  }

  /** `sep.join(parts)`. */
  function Join(parts: seq<string>, sep: char): string {
    if |parts| == 0 then []
    else if |parts| == 1 then parts[0]
    else Join(parts[..|parts| - 1], sep) + [sep] + parts[|parts| - 1]
  }

  /** `s.split(sep)`: the pieces between separators, at least one, and
      joining them back gives `s`. */
  function Split(s: string, sep: char): (parts: seq<string>)
    ensures |parts| >= 1
    ensures forall k :: 0 <= k < |parts| ==> sep !in parts[k]
    ensures Join(parts, sep) == s
  {
    if s == [] then [[]]
    else
      var init := Split(s[..|s| - 1], sep);
      var c := s[|s| - 1];
      assert s == s[..|s| - 1] + [c];
      if c == sep then
        assert (init + [[]])[..|init|] == init;
        init + [[]]
      else
        var r := init[..|init| - 1] + [init[|init| - 1] + [c]];
        JoinExtendLast(init, sep, c);
        r
  }

  /** Appending a character to the last piece appends it to the joined
      string. */
  lemma JoinExtendLast(parts: seq<string>, sep: char, c: char)
    requires |parts| >= 1
    ensures Join(parts[..|parts| - 1] + [parts[|parts| - 1] + [c]], sep) == Join(parts, sep) + [c]
  {
    var r := parts[..|parts| - 1] + [parts[|parts| - 1] + [c]];
    assert r[..|r| - 1] == parts[..|parts| - 1];
  }

  function Last(parts: seq<string>): string
    requires |parts| >= 1
  {
    parts[|parts| - 1]
  }

  /** The last piece of a split is the suffix after the last separator, or
      the whole string when there is none. */
  lemma {:induction false} LastPieceAfterLastSeparator(s: string, sep: char)
    ensures var p := Last(Split(s, sep));
      |p| <= |s| && p == s[|s| - |p|..] && sep !in p && (|p| < |s| ==> s[|s| - |p| - 1] == sep)
  {
    if s != [] {
      LastPieceAfterLastSeparator(s[..|s| - 1], sep);
    }
  }

  function TrimStart(s: string): (r: string)
    ensures |r| <= |s| && r == s[|s| - |r|..]
    ensures forall k :: 0 <= k < |s| - |r| ==> IsSpace(s[k])
    ensures r == [] || !IsSpace(r[0])
  {
    if s != [] && IsSpace(s[0]) then TrimStart(s[1..]) else s
  }

  function TrimEnd(s: string): (r: string)
    ensures |r| <= |s| && r == s[..|r|]
    ensures forall k :: |r| <= k < |s| ==> IsSpace(s[k])
    ensures r == [] || !IsSpace(r[|r| - 1])
  {
    if s != [] && IsSpace(s[|s| - 1]) then TrimEnd(s[..|s| - 1]) else s
  }

  /** How many leading whitespace characters `str.strip()` removes. */
  function LeadingSpaces(s: string): nat {
    |s| - |TrimStart(s)|
  }

  /** `s.strip()`: the middle part of `s` whose ends are not whitespace,
      with only whitespace cut off on either side. */
  function Strip(s: string): (r: string)
    ensures LeadingSpaces(s) + |r| <= |s|
    ensures r == s[LeadingSpaces(s)..LeadingSpaces(s) + |r|]
    ensures forall k :: 0 <= k < LeadingSpaces(s) ==> IsSpace(s[k])
    ensures forall k :: LeadingSpaces(s) + |r| <= k < |s| ==> IsSpace(s[k])
    ensures r == [] || (!IsSpace(r[0]) && !IsSpace(r[|r| - 1]))
  {
    var t := TrimStart(s);
    var r := TrimEnd(t);
    assert r != [] ==> r[0] == t[0];
    r
  }

  /** Stripping adds no character. */
  lemma StripKeepsAbsent(s: string, c: char)
    requires c !in s
    ensures c !in Strip(s)
  {
    var r := Strip(s);
    forall k | 0 <= k < |r|
      ensures r[k] != c
    {
      assert r[k] == s[LeadingSpaces(s) + k];
    }
  }

  /** The `region` of a `place`. */
  function RegionOf(place: string): (r: string)
    ensures ',' !in r
    ensures r == [] || (!IsSpace(r[0]) && !IsSpace(r[|r| - 1]))
  {
    var p := Last(Split(place, ','));
    StripKeepsAbsent(p, ',');
    Strip(p)
  }

  /** The region is the stripped text after the last comma of the place. */
  lemma RegionAfterLastComma(place: string, k: nat)
    requires k < |place| && place[k] == ','
    requires forall m :: k < m < |place| ==> place[m] != ','
    ensures RegionOf(place) == Strip(place[k + 1..])
  {
    LastPieceAfterLastSeparator(place, ',');
  }

  /** A place without a comma is its own region, stripped. */
  lemma RegionWithoutComma(place: string)
    requires ',' !in place
    ensures RegionOf(place) == Strip(place)
  {
    LastPieceAfterLastSeparator(place, ',');
  }
}
