/**
 * The string methods the Smith-Waterman commands use, for ASCII text:
 * `str.split` with and without a separator, `str.lower`, `str.islower`, and
 * `sw_nav`'s case rule and line trimming, which both command modules share.
 */
module Text {
  import opened Options

  predicate IsUpper(c: char) {
    'A' <= c <= 'Z'
  }

  predicate IsLowerChar(c: char) {
    'a' <= c <= 'z'
  }

  /** The characters `str.split()` splits on: space, tab, newline, return, vertical tab, form feed. */
  predicate IsSpace(c: char) {
    c == ' ' || c == '\t' || c == '\n' || c == '\r' || c == '\U{B}' || c == '\U{C}'
  }

  function LowerChar(c: char): (r: char)
    ensures !IsUpper(r)
    ensures IsUpper(c) ==> IsLowerChar(r)
    ensures !IsUpper(c) ==> r == c
  {
    if IsUpper(c) then (c as int + 32) as char else c
  }

  function UpperChar(c: char): (r: char)
    ensures !IsLowerChar(r)
    ensures IsLowerChar(c) ==> IsUpper(r)
    ensures !IsLowerChar(c) ==> r == c
  {
    if IsLowerChar(c) then (c as int - 32) as char else c
  }

  /** `s.upper()`. */
  function Upper(s: string): (r: string)
    ensures |r| == |s|
    ensures forall i :: 0 <= i < |s| ==> r[i] == UpperChar(s[i])
  {
    if s == [] then [] else [UpperChar(s[0])] + Upper(s[1..])
  }

  /** `s.lower()`. */
  function Lower(s: string): (r: string)
    ensures |r| == |s|
    ensures forall i :: 0 <= i < |s| ==> r[i] == LowerChar(s[i])
  {
    if s == [] then [] else [LowerChar(s[0])] + Lower(s[1..])
  }

  /** Lowering twice is lowering once; text without capitals is left as it is. */
  lemma LowerIdempotent(s: string)
    ensures Lower(Lower(s)) == Lower(s)
    ensures (forall i :: 0 <= i < |s| ==> !IsUpper(s[i])) ==> Lower(s) == s
  {
  }

  /** `s.islower()`: some cased character, and none of them upper case. */
  predicate IsLower(s: string) {
    (exists i :: 0 <= i < |s| && IsLowerChar(s[i])) && forall i :: 0 <= i < |s| ==> !IsUpper(s[i])
  }

  /** Text that `islower()` accepts is its own `lower()`. */
  lemma LowerOfLower(s: string)
    requires IsLower(s)
    ensures Lower(s) == s
  {
    LowerIdempotent(s);
  }

  /** The longest prefix without whitespace, and what follows it. */
  function TakeWord(s: string): (r: (string, string))
    ensures r.0 + r.1 == s
    ensures forall i :: 0 <= i < |r.0| ==> !IsSpace(r.0[i])
    ensures r.1 != [] ==> IsSpace(r.1[0])
  {
    if s == [] || IsSpace(s[0]) then ([], s)
    else
      var t := TakeWord(s[1..]);
      assert [s[0]] + t.0 + t.1 == [s[0]] + (t.0 + t.1);
      ([s[0]] + t.0, t.1)
  }

  function DropSpace(s: string): (r: string)
    ensures |r| <= |s| && r == s[|s| - |r|..]
    ensures r != [] ==> !IsSpace(r[0])
  {
    if s != [] && IsSpace(s[0]) then DropSpace(s[1..]) else s
  }

  /** `s.split()`: the maximal runs of non-whitespace characters, in order. */
  function SplitSpace(s: string): (r: seq<string>)
    decreases |s|
  {
    var t := DropSpace(s);
    if t == [] then []
    else
      var (w, rest) := TakeWord(t);
      assert w != [];
      [w] + SplitSpace(rest)
  }

  function Concat(ps: seq<string>): string {
    if ps == [] then [] else ps[0] + Concat(ps[1..])
  }

  function RemoveSpace(s: string): (r: string) {
    if s == [] then [] else (if IsSpace(s[0]) then [] else [s[0]]) + RemoveSpace(s[1..])
  }

  lemma {:induction false} RemoveSpaceAppend(a: string, b: string)
    ensures RemoveSpace(a + b) == RemoveSpace(a) + RemoveSpace(b)
  {
    if a != [] {
      assert (a + b)[1..] == a[1..] + b;
      RemoveSpaceAppend(a[1..], b);
    } else {
      assert a + b == b;
    }
  }

  lemma {:induction false} RemoveSpaceOfWord(w: string)
    requires forall i :: 0 <= i < |w| ==> !IsSpace(w[i])
    ensures RemoveSpace(w) == w
  {
    if w != [] {
      RemoveSpaceOfWord(w[1..]);
    }
  }

  lemma {:induction false} RemoveSpaceOfBlanks(s: string)
    ensures RemoveSpace(s) == RemoveSpace(DropSpace(s))
  {
    if s != [] && IsSpace(s[0]) {
      RemoveSpaceOfBlanks(s[1..]);
    }
  }

  /**
   * Splitting on whitespace drops the empty pieces: every piece is non-empty and
   * free of whitespace, and together they are the text without its whitespace.
   */
  lemma {:induction false} SplitSpacePieces(s: string)
    ensures forall k :: 0 <= k < |SplitSpace(s)| ==> SplitSpace(s)[k] != []
    ensures forall k, i :: 0 <= k < |SplitSpace(s)| && 0 <= i < |SplitSpace(s)[k]| ==> !IsSpace(SplitSpace(s)[k][i])
    ensures Concat(SplitSpace(s)) == RemoveSpace(s)
    decreases |s|
  {
    var t := DropSpace(s);
    RemoveSpaceOfBlanks(s);
    if t != [] {
      var (w, rest) := TakeWord(t);
      SplitSpacePieces(rest);
      RemoveSpaceAppend(w, rest);
      RemoveSpaceOfWord(w);
      var r := SplitSpace(s);
      assert r == [w] + SplitSpace(rest);
      forall k | 0 <= k < |r| ensures r[k] != [] {
        if k > 0 { assert r[k] == SplitSpace(rest)[k - 1]; }
      }
      forall k, i | 0 <= k < |r| && 0 <= i < |r[k]| ensures !IsSpace(r[k][i]) {
        if k > 0 { assert r[k] == SplitSpace(rest)[k - 1]; }
      }
      assert r[1..] == SplitSpace(rest);
    }
  }

  /** `s.split(sep)` for a non-empty separator: the pieces between its occurrences, left to right. */
  function SplitOn(s: string, sep: string): (r: seq<string>)
    requires sep != []
    ensures |r| >= 1
    decreases |s|
  {
    if |sep| <= |s| && s[..|sep|] == sep then [[]] + SplitOn(s[|sep|..], sep)
    else if s == [] then [[]]
    else
      var t := SplitOn(s[1..], sep);
      [[s[0]] + t[0]] + t[1..]
  }

  /** `sep.join(ps)`. */
  function Join(ps: seq<string>, sep: string): string
    requires |ps| >= 1
  {
    if |ps| == 1 then ps[0] else ps[0] + sep + Join(ps[1..], sep)
  }

  /** Joining the pieces with the separator gives the text back. */
  lemma {:induction false} JoinSplitOn(s: string, sep: string)
    requires sep != []
    ensures Join(SplitOn(s, sep), sep) == s
    decreases |s|
  {
    if |sep| <= |s| && s[..|sep|] == sep {
      var t := SplitOn(s[|sep|..], sep);
      JoinSplitOn(s[|sep|..], sep);
      assert SplitOn(s, sep) == [[]] + t;
      JoinCons([], t, sep);
      assert [] + sep + Join(t, sep) == sep + s[|sep|..];
      assert s == sep + s[|sep|..];
    } else if s != [] {
      var t := SplitOn(s[1..], sep);
      JoinSplitOn(s[1..], sep);
      assert SplitOn(s, sep) == [[s[0]] + t[0]] + t[1..];
      JoinHead(s[0], t, sep);
      assert s == [s[0]] + s[1..];
    }
  }

  lemma JoinCons(p: string, t: seq<string>, sep: string)
    requires |t| >= 1
    ensures Join([p] + t, sep) == p + sep + Join(t, sep)
  {
    assert ([p] + t)[1..] == t;
  }

  /** Putting a character in front of the first piece puts it in front of the joined text. */
  lemma JoinHead(c: char, t: seq<string>, sep: string)
    requires |t| >= 1
    ensures Join([[c] + t[0]] + t[1..], sep) == [c] + Join(t, sep)
  {
    var r := [[c] + t[0]] + t[1..];
    if |t| > 1 {
      assert r[1..] == t[1..];
    }
  }

  /** `s.split(splitBy)`: on whitespace for None; an empty separator raises ValueError (None). */
  function Split(s: string, splitBy: Option<string>): (r: Option<seq<string>>)
    ensures r.None? <==> splitBy == Some([])
  {
    match splitBy
    case None => Some(SplitSpace(s))
    case Some(sep) => if sep == [] then None else Some(SplitOn(s, sep))
  }

  /**
   * `sw_nav`'s case rule: the reference is matched ignoring case when the flag
   * `i` is given, or the flag `s` (smart case) and the reference is all lower case.
   */
  predicate IgnoreCase(flags: string, reference: string) {
    'i' in flags || ('s' in flags && IsLower(reference))
  }

  /** The reference string as `quick` hands it to the sort key. */
  function EffectiveReference(flags: string, reference: string): (r: string)
    ensures IgnoreCase(flags, reference) ==> forall i :: 0 <= i < |r| ==> !IsUpper(r[i])
    ensures !IgnoreCase(flags, reference) ==> r == reference
  {
    if IgnoreCase(flags, reference) then Lower(reference) else reference
  }

  /**
   * Smart case alone ignores case exactly when the reference has a lower-case
   * letter and no capital: one capital makes the match case-sensitive.
   */
  lemma SmartCase(flags: string, reference: string)
    requires 'i' !in flags && 's' in flags
    ensures IgnoreCase(flags, reference) <==>
      (exists i :: 0 <= i < |reference| && IsLowerChar(reference[i])) &&
      (forall i :: 0 <= i < |reference| ==> !IsUpper(reference[i]))
  {
  }

  /** Without `i` or `s` the match is always case-sensitive. */
  lemma NoCaseFlags(flags: string, reference: string)
    requires 'i' !in flags && 's' !in flags
    ensures EffectiveReference(flags, reference) == reference
  {
  }

  /**
   * `_open`'s line for the console: the whole line when the reference is
   * empty, otherwise the line without as many trailing characters as the
   * reference has (`line[:-len(ref)]`, empty when the reference is longer).
   */
  function OpenLine(line: string, reference: string): (r: string)
    ensures |r| <= |line| && r == line[..|r|]
  {
    if |reference| == 0 then line
    else if |reference| <= |line| then line[..|line| - |reference|]
    else []
  }

  /**
   * What `_open` hands to `open_console` after moving into the selection:
   * nothing without the flag `k` (keep open), otherwise the trimmed line.
   */
  function ConsoleLine(flags: string, line: string, reference: string): (r: Option<string>)
    ensures r.Some? <==> 'k' in flags
    ensures r.Some? ==> |r.value| <= |line| && r.value == line[..|r.value|]
    ensures r.Some? && |reference| == 0 ==> r.value == line
  {
    if 'k' in flags then Some(OpenLine(line, reference)) else None
  }

  /** A console line that ends with the reference gets the reference trimmed off, for any reference. */
  lemma OpenLineTrimsReference(prefix: string, reference: string)
    ensures OpenLine(prefix + reference, reference) == prefix
  {
    if |reference| > 0 {
      assert (prefix + reference)[..|prefix|] == prefix;
    } else {
      assert prefix + reference == prefix;
    }
  }
}
