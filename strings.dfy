/**
 * Python string operations used by the preprocessor and the loaders:
 * `str.find`, `str.split(sep)` with a non-empty separator, `sep.join`,
 * `str.strip(chars)` and the decimal rendering of a natural number.
 */
module Strings {
  import opened Wrappers

  /** `sep` occurs in `s` starting at position `i`. */
  predicate OccursAt(s: string, sep: string, i: nat) {
    i + |sep| <= |s| && s[i..i + |sep|] == sep
  }

  /** `sep in s` (substring test). */
  predicate Contains(s: string, sep: string) {
    exists i :: 0 <= i <= |s| && OccursAt(s, sep, i)
  }

  /** The first occurrence of `sep` in `s` at or after `from`. */
  function FindFrom(s: string, sep: string, from: nat): (r: Option<nat>)
    requires |sep| > 0
    ensures r.Some? ==>
      && from <= r.value && OccursAt(s, sep, r.value)
      && forall j :: from <= j < r.value ==> !OccursAt(s, sep, j)
    ensures r.None? ==> forall j: nat :: from <= j ==> !OccursAt(s, sep, j)
    decreases |s| - from
  {
    if from + |sep| > |s| then None
    else if s[from..from + |sep|] == sep then Some(from)
    else FindFrom(s, sep, from + 1)
  }

  /** `s.find(sep)`, with `None` for -1. */
  function Find(s: string, sep: string): (r: Option<nat>)
    requires |sep| > 0
    ensures r.Some? ==> OccursAt(s, sep, r.value) && forall j :: 0 <= j < r.value ==> !OccursAt(s, sep, j)
    ensures r.None? <==> !Contains(s, sep)
  {
    FindFrom(s, sep, 0)
  }

  /**
   * `s.split(sep)`: the pieces between the occurrences of `sep`, found left to
   * right without overlap; there is always at least one piece. No piece holds
   * the separator, and no occurrence starts inside a piece that a separator
   * follows, so each cut is at the leftmost occurrence left.
   */
  function Split(s: string, sep: string): (r: seq<string>)
    requires |sep| > 0
    ensures |r| >= 1
    ensures forall k :: 0 <= k < |r| ==> !Contains(r[k], sep)
    ensures forall k :: 0 <= k < |r| - 1 ==> !Contains(r[k] + sep[..|sep| - 1], sep)
    decreases |s|
  {
    match Find(s, sep)
    case None => [s]
    case Some(i) =>
      assert !Contains(s[..i], sep) by {
        forall j | 0 <= j <= i && OccursAt(s[..i], sep, j) ensures false {
          assert s[..i][j..j + |sep|] == s[j..j + |sep|];
          assert OccursAt(s, sep, j);
        }
      }
      FirstCutIsLeftmost(s, sep, i);
      [s[..i]] + Split(s[i + |sep|..], sep)
  }

  /** Before the first occurrence at `i`, no occurrence starts, even one running into `sep` itself. */
  lemma {:induction false} FirstCutIsLeftmost(s: string, sep: string, i: nat)
    requires |sep| > 0 && Find(s, sep) == Some(i)
    ensures !Contains(s[..i] + sep[..|sep| - 1], sep)
  {
    var t := s[..i] + sep[..|sep| - 1];
    assert t == s[..i + |sep| - 1] by {
      assert s[i..i + |sep|] == sep;
      assert forall m :: 0 <= m < |t| ==> t[m] == s[m];
    }
    forall j | 0 <= j <= |t| && OccursAt(t, sep, j) ensures false {
      assert t[j..j + |sep|] == s[j..j + |sep|];
      assert OccursAt(s, sep, j) && j < i;
    }
  }

  /** `s.split(sep)` for any separator: Python rejects the empty one with `ValueError`. */
  function PySplit(s: string, sep: string): (r: Result<seq<string>>)
    ensures r.Err? <==> sep == []
    ensures r.Err? ==> r.error == ValueError
    ensures r.Ok? ==> |r.value| >= 1 && forall k :: 0 <= k < |r.value| ==> !Contains(r.value[k], sep)
  {
    if sep == [] then Err(ValueError) else Ok(Split(s, sep))
  }

  /** `sep in s` holds exactly when the split has more than one piece. */
  lemma {:induction false} SplitPieces(s: string, sep: string)
    requires |sep| > 0
    ensures |Split(s, sep)| >= 2 <==> Contains(s, sep)
  {
  }

  /** `sep.join(parts)` */
  function Join(parts: seq<string>, sep: string): string {
    if parts == [] then ""
    else if |parts| == 1 then parts[0]
    else parts[0] + sep + Join(parts[1..], sep)
  }

  /**
   * The facts `Split` states single it out: parts that join back to `s`,
   * hold no separator, and admit no occurrence starting inside a part before
   * a separator are exactly `s.split(sep)`.
   */
  lemma {:induction false} SplitCharacterized(s: string, sep: string, parts: seq<string>)
    requires |sep| > 0 && parts != [] && Join(parts, sep) == s
    requires forall k :: 0 <= k < |parts| ==> !Contains(parts[k], sep)
    requires forall k :: 0 <= k < |parts| - 1 ==> !Contains(parts[k] + sep[..|sep| - 1], sep)
    ensures Split(s, sep) == parts
    decreases |parts|
  {
    if |parts| == 1 {
      assert Find(s, sep).None?;
    } else {
      var p := parts[0];
      var rest := parts[1..];
      var n := |p|;
      assert s == p + sep + Join(rest, sep);
      assert OccursAt(s, sep, n) by {
        assert s[n..n + |sep|] == sep;
      }
      var f := Find(s, sep);
      assert f.Some? && f.value <= n;
      if f.value < n {
        var j := f.value;
        var t := p + sep[..|sep| - 1];
        assert t[j..j + |sep|] == s[j..j + |sep|] by {
          assert forall m :: 0 <= m < |t| ==> t[m] == s[m];
        }
        assert OccursAt(t, sep, j);
        assert false;
      }
      assert s[..n] == p;
      assert s[n + |sep|..] == Join(rest, sep);
      forall k | 0 <= k < |rest| ensures !Contains(rest[k], sep) {
        assert rest[k] == parts[k + 1];
      }
      forall k | 0 <= k < |rest| - 1 ensures !Contains(rest[k] + sep[..|sep| - 1], sep) {
        assert rest[k] == parts[k + 1];
      }
      SplitCharacterized(s[n + |sep|..], sep, rest);
      assert parts == [p] + rest;
    }
  }

  /** A string as long as `sep` contains it only by being `sep`. */
  lemma {:induction false} SameLengthOccursOnlyIfEqual(t: string, sep: string)
    requires |t| == |sep| && t != sep
    ensures !Contains(t, sep)
  {
    forall j | 0 <= j <= |t| && OccursAt(t, sep, j) ensures false {
    }
  }

  /** `"a;;;b".split(";;")` cuts at the first pair of semicolons: `["a", ";b"]`, not `["a;", "b"]`. */
  lemma {:induction false} SplitOverlapExample()
    ensures Split("a;;;b", ";;") == ["a", ";b"]
  {
    var parts := ["a", ";b"];
    assert !Contains("a", ";;");
    SameLengthOccursOnlyIfEqual(";b", ";;");
    SameLengthOccursOnlyIfEqual("a;", ";;");
    assert parts[0] + ";;"[..1] == "a;";
    assert Join(parts, ";;") == "a;;;b";
    SplitCharacterized("a;;;b", ";;", parts);
  }

  /** Joining the pieces of a split gives the string back. */
  lemma {:induction false} JoinSplit(s: string, sep: string)
    requires |sep| > 0
    ensures Join(Split(s, sep), sep) == s
    decreases |s|
  {
    match Find(s, sep)
    case None =>
    case Some(i) =>
      var rest := s[i + |sep|..];
      var tail := Split(rest, sep);
      JoinSplit(rest, sep);
      var parts := [s[..i]] + tail;
      assert Split(s, sep) == parts;
      assert parts[1..] == tail;
      assert Join(parts, sep) == s[..i] + sep + Join(tail, sep);
      assert s[i..i + |sep|] == sep;
      assert s == s[..i] + s[i..i + |sep|] + rest;
  }

  /**
   * Splitting a join on a one-character separator gives the parts back, when
   * no part contains that character.
   */
  lemma {:induction false} SplitJoin(parts: seq<string>, c: char)
    requires parts != []
    requires forall k :: 0 <= k < |parts| ==> c !in parts[k]
    ensures Split(Join(parts, [c]), [c]) == parts
  {
    var s := Join(parts, [c]);
    if |parts| == 1 {
      NoCharNoOccurrence(s, c);
    } else {
      var p := parts[0];
      var rest := Join(parts[1..], [c]);
      assert s == p + [c] + rest;
      assert OccursAt(s, [c], |p|) by {
        assert s[|p|..|p| + 1] == [c];
      }
      forall j | 0 <= j < |p| ensures !OccursAt(s, [c], j) {
        assert s[j] == p[j];
        assert s[j..j + 1][0] == s[j];
      }
      assert Find(s, [c]) == Some(|p|);
      assert s[..|p|] == p;
      assert s[|p| + 1..] == rest;
      SplitJoin(parts[1..], c);
      assert Split(s, [c]) == [p] + Split(rest, [c]);
    }
  }

  lemma {:induction false} NoCharNoOccurrence(s: string, c: char)
    requires c !in s
    ensures Find(s, [c]).None?
  {
    forall i | 0 <= i <= |s| ensures !OccursAt(s, [c], i) {
      if i + 1 <= |s| {
        assert s[i..i + 1][0] == s[i];
      }
    }
  }

  /** `s.lstrip(c)`: drop every leading `c`. */
  function LStrip(s: string, c: char): (r: string)
    ensures r == [] || r[0] != c
    ensures |r| <= |s| && r == s[|s| - |r|..]
  {
    if s != [] && s[0] == c then LStrip(s[1..], c) else s
  }

  /** `s.rstrip(c)`: drop every trailing `c`. */
  function RStrip(s: string, c: char): (r: string)
    ensures r == [] || r[|r| - 1] != c
    ensures r <= s
  {
    if s != [] && s[|s| - 1] == c then RStrip(s[..|s| - 1], c) else s
  }

  /** `s.strip(c)` */
  function Strip(s: string, c: char): string {
    RStrip(LStrip(s, c), c)
  }

  /** A line without the character, terminated by it, strips back to itself. */
  lemma {:induction false} StripTerminated(x: string, c: char)
    requires c !in x
    ensures Strip(x + [c], c) == x
  {
    if x == [] {
      assert LStrip([c], c) == LStrip([], c);
    } else {
      assert LStrip(x + [c], c) == x + [c];
      assert (x + [c])[..|x|] == x;
      assert RStrip(x + [c], c) == RStrip(x, c);
      assert x[|x| - 1] != c;
    }
  }

  /** The decimal digits of `n` (`str(n)`), without padding. */
  function NatToString(n: nat): (r: string)
    ensures |r| >= 1
    ensures forall k :: 0 <= k < |r| ==> '0' <= r[k] <= '9'
  {
    if n < 10 then [DigitChar(n)] else NatToString(n / 10) + [DigitChar(n % 10)]
  }

  function DigitChar(d: nat): (c: char)
    requires d < 10
    ensures '0' <= c <= '9'
  {
    ['0', '1', '2', '3', '4', '5', '6', '7', '8', '9'][d]
  }
}
