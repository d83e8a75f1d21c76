/** String helpers mirroring JavaScript's `join`, `toLowerCase` and `split(".").pop()`. */
module Strings {

  /** `parts.join(sep)`: the parts in order with `sep` between consecutive ones. */
  function Join(parts: seq<string>, sep: string): (r: string)
  {
    if |parts| == 0 then ""
    else if |parts| == 1 then parts[0]
    else parts[0] + sep + Join(parts[1..], sep)
  }

  /** Joining one more part appends the separator and that part. */
  lemma {:induction false} JoinSnoc(parts: seq<string>, x: string, sep: string)
    requires |parts| > 0
    ensures Join(parts + [x], sep) == Join(parts, sep) + sep + x
  {
    if |parts| == 1 {
      assert parts + [x] == [parts[0], x];
    } else {
      assert (parts + [x])[1..] == parts[1..] + [x];
      JoinSnoc(parts[1..], x, sep);
    }
  }

  /** `t` occurs in `s` starting at index `i`. */
  predicate OccursAt(t: string, s: string, i: nat)
  {
    i + |t| <= |s| && s[i..i + |t|] == t
  }

  /** `t` occurs in `s` at some position. */
  ghost predicate IsInfix(t: string, s: string)
  {
    exists i: nat :: OccursAt(t, s, i)
  }

  /** An infix of `s` stays an infix when text is added on either side. */
  lemma InfixExtend(t: string, s: string, before: string, after: string)
    requires IsInfix(t, s)
    ensures IsInfix(t, before + s + after)
  {
    var i: nat :| OccursAt(t, s, i);
    var u := before + s + after;
    assert u[|before| + i..|before| + i + |t|] == s[i..i + |t|];
    assert OccursAt(t, u, |before| + i);
  }

  /** Every part of a join occurs in the joined string. */
  lemma {:induction false} JoinContainsParts(parts: seq<string>, sep: string, k: nat)
    requires k < |parts|
    ensures IsInfix(parts[k], Join(parts, sep))
  {
    var s := Join(parts, sep);
    if |parts| == 1 {
      assert OccursAt(parts[k], s, 0);
    } else if k == 0 {
      assert s == parts[0] + (sep + Join(parts[1..], sep));
      assert s[0..|parts[0]|] == parts[0];
      assert OccursAt(parts[k], s, 0);
    } else {
      JoinContainsParts(parts[1..], sep, k - 1);
      var rest := Join(parts[1..], sep);
      var i: nat :| OccursAt(parts[k], rest, i);
      var off := |parts[0]| + |sep|;
      assert s == (parts[0] + sep) + rest;
      assert s[off + i..off + i + |parts[k]|] == rest[i..i + |parts[k]|];
      assert OccursAt(parts[k], s, off + i);
    }
  }

  /**
   * The capitals of Basic Latin (`A`..`Z`) and of the Latin-1 Supplement (`\U{00C0}`..`\U{00DE}`
   * without the multiplication sign `\U{00D7}`), whose lower-case letters lie 32 code points above.
   */
  predicate IsLatinCapital(c: char)
  {
    'A' <= c <= 'Z' || ('\U{00C0}' <= c <= '\U{00DE}' && c != '\U{00D7}')
  }

  /** The case mapping of `toLowerCase` on Basic Latin and the Latin-1 Supplement. */
  function ToLowerChar(c: char): (r: char)
    ensures IsLatinCapital(c) ==> r as int == c as int + 32
    ensures !IsLatinCapital(c) ==> r == c
    ensures !IsLatinCapital(r)
  {
    if IsLatinCapital(c) then (c as int + 32) as char else c
  }

  function ToLower(s: string): (r: string)
    ensures |r| == |s|
    ensures forall k :: 0 <= k < |s| ==> r[k] == ToLowerChar(s[k])
  {
    if |s| == 0 then "" else [ToLowerChar(s[0])] + ToLower(s[1..])
  }

  /** Lower-casing twice is the same as lower-casing once. */
  lemma ToLowerIdempotent(s: string)
    ensures ToLower(ToLower(s)) == ToLower(s)
  {
  }

  /** Capitals with a diaeresis are lowered too: "NAÏVE" becomes "naïve". */
  lemma ToLowerExample()
    ensures ToLower("NAÏVE") == "naïve"
  {
    assert ToLower("NAÏVE")[2] == 'ï';
  }

  /** `name.split(".").pop()`: the text after the last `.`, or all of `name` when it has none. */
  function LastSegment(name: string, sep: char): string
  {
    if |name| == 0 then ""
    else if name[|name| - 1] == sep then ""
    else LastSegment(name[..|name| - 1], sep) + [name[|name| - 1]]
  }

  /**
   * The last segment is the longest suffix without `sep`: it has no `sep`, it is a suffix of
   * `name`, and it is either all of `name` (which then has no `sep`) or preceded by `sep`.
   */
  lemma {:induction false} LastSegmentSpec(name: string, sep: char)
    ensures var r := LastSegment(name, sep);
            && sep !in r
            && |r| <= |name| && r == name[|name| - |r|..]
            && (|r| < |name| ==> name[|name| - |r| - 1] == sep)
            && (sep !in name ==> r == name)
  {
    if |name| > 0 && name[|name| - 1] != sep {
      var init := name[..|name| - 1];
      LastSegmentSpec(init, sep);
      var r0 := LastSegment(init, sep);
      var r := LastSegment(name, sep);
      assert r == r0 + [name[|name| - 1]];
      assert r == name[|name| - |r|..];
      if sep !in name {
        assert sep !in init;
        assert name == init + [name[|name| - 1]];
      }
    }
  }

  /** Splitting `base + "." + ext` on `.` yields `ext` whenever `ext` has no `.`. */
  lemma {:induction false} LastSegmentOfAppend(base: string, sep: char, ext: string)
    requires sep !in ext
    ensures LastSegment(base + [sep] + ext, sep) == ext
  {
    var name := base + [sep] + ext;
    if |ext| > 0 {
      var init := ext[..|ext| - 1];
      assert ext[|ext| - 1] in ext;
      assert name[..|name| - 1] == base + [sep] + init;
      assert forall c :: c in init ==> c in ext;
      LastSegmentOfAppend(base, sep, init);
      assert ext == init + [ext[|ext| - 1]];
    }
  }
}
