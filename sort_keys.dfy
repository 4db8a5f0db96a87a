/**
 * The sort key of smith_waterman/smith_waterman.py: a Smith-Waterman score
 * against a reference string, over an alphabet that only grows and whose score
 * matrix is rebuilt when it does; its split variant scores an item against
 * every part of the reference and sums; and `sw_nav.quick`, which points the
 * module's shared key at the typed reference. The aligner (parasail) is a
 * parameter: an integer score of a query against a reference.
 */
module SortKeys {
  import opened Options
  import opened Text

  const MatchScore: int := 2
  const MismatchScore: int := -1
  const GapOpenScore: int := -2
  const GapExtendScore: int := 0

  /** `parasail.matrix_create(''.join(alphabet), match, mismatch)`, kept as its arguments. */
  datatype Matrix = Matrix(alphabet: set<char>, matchScore: int, mismatchScore: int)

  /** `parasail.sw_striped_16(query, reference, open, extend, matrix).score`. */
  type Aligner = (string, string, int, int, Matrix) -> int

  function Chars(s: string): set<char> {
    set c | c in s
  }

  lemma CharsAppend(a: string, b: string)
    ensures Chars(a + b) == Chars(a) + Chars(b)
  {
    forall c | c in Chars(a + b) ensures c in Chars(a) + Chars(b) {
      var i :| 0 <= i < |a + b| && (a + b)[i] == c;
      if i < |a| { assert a[i] == c; } else { assert b[i - |a|] == c; }
    }
    forall c | c in Chars(a) + Chars(b) ensures c in Chars(a + b) {
      if c in a {
        var i :| 0 <= i < |a| && a[i] == c;
        assert (a + b)[i] == c;
      } else {
        var i :| 0 <= i < |b| && b[i] == c;
        assert (a + b)[|a| + i] == c;
      }
    }
  }

  /** The matrix that goes with an alphabet: none until some character is known. */
  function MatrixFor(alphabet: set<char>): (r: Option<Matrix>)
    ensures r.Some? <==> alphabet != {}
    ensures r.Some? ==> r.value.alphabet == alphabet
  {
    if alphabet == {} then None else Some(Matrix(alphabet, MatchScore, MismatchScore))
  }

  /** Adding characters to a set grows it exactly when one of them is new. */
  lemma GrowsIffNew(a: set<char>, c: set<char>)
    ensures |a + c| != |a| <==> !(c <= a)
    ensures |a + c| == |a| <==> a + c == a
  {
    if !(c <= a) {
      var x :| x in c && x !in a;
      assert a + c == (a + {x}) + (c - {x});
      assert |a + {x}| == |a| + 1;
      assert |a + c| >= |a + {x}| by {
        assert (a + {x}) <= a + c;
        SubsetCard(a + {x}, a + c);
      }
    } else {
      assert a + c == a;
    }
  }

  lemma SubsetCard(a: set<char>, b: set<char>)
    requires a <= b
    ensures |a| <= |b|
  {
    assert b == a + (b - a);
  }

  /**
   * `SwSortKey`: the alphabet seen so far, its score matrix and the reference
   * string. The aligner stands for parasail.
   */
  class SwSortKey {
    var alphabet: set<char>
    var matrix: Option<Matrix>
    var referenceString: Option<string>
    const align: Aligner

    /** The matrix always belongs to the alphabet as it is now. */
    predicate Valid()
      reads this
    {
      matrix == MatrixFor(alphabet)
    }

    constructor (align: Aligner)
      ensures Valid() && alphabet == {} && matrix == None && referenceString == None
      ensures this.align == align
    {
      alphabet := {};
      matrix := None;
      referenceString := None;
      this.align := align;
    }

    /**
     * `_update_alphabet(x)`: add the characters of `x`; build a new matrix
     * when that made the alphabet larger, and keep the old one otherwise.
     */
    method UpdateAlphabet(x: string)
      requires Valid()
      modifies this`alphabet, this`matrix
      ensures Valid()
      ensures alphabet == old(alphabet) + Chars(x)
      ensures matrix == old(matrix) <==> alphabet == old(alphabet)
    {
      var originalLength := |alphabet|;
      alphabet := alphabet + set c | c in x;
      GrowsIffNew(old(alphabet), Chars(x));
      if |alphabet| == originalLength {
        return;
      }
      matrix := Some(Matrix(alphabet, MatchScore, MismatchScore));
    }

    /** `set_reference_string` of the plain key: the reference's characters join the alphabet. */
    method SetReferenceString(reference: string)
      requires Valid()
      modifies this
      ensures Valid()
      ensures alphabet == old(alphabet) + Chars(reference)
      ensures referenceString == Some(reference)
    {
      UpdateAlphabet(reference);
      referenceString := Some(reference);
    }

    /**
     * `__call__(string)`: the query's characters join the alphabet first, then
     * it is scored against the reference. No reference or no matrix fails in
     * the aligner, and an empty query fails dividing by its length.
     */
    method Call(s: string) returns (r: Option<int>)
      requires Valid()
      modifies this`alphabet, this`matrix
      ensures Valid()
      ensures alphabet == old(alphabet) + Chars(s)
      ensures r == BaseScore(align, s, referenceString, alphabet)
    {
      UpdateAlphabet(s);
      if referenceString.None? || matrix.None? || |s| == 0 {
        return None;
      }
      r := Some(align(s, referenceString.value, -GapOpenScore, -GapExtendScore, matrix.value));
    }
  }

  /** The score the plain key gives query `s` under the alphabet it has after adding `s`. */
  function BaseScore(align: Aligner, s: string, reference: Option<string>, alphabet: set<char>): (r: Option<int>)
    ensures r.Some? <==> reference.Some? && alphabet != {} && s != []
  {
    if reference.None? || alphabet == {} || s == [] then None
    else Some(align(s, reference.value, -GapOpenScore, -GapExtendScore, Matrix(alphabet, MatchScore, MismatchScore)))
  }

  /** `sum(f(p) for p in ps)`, added up left to right as the loops do. */
  function SumOver(f: string -> int, ps: seq<string>): int {
    if ps == [] then 0 else SumOver(f, ps[..|ps| - 1]) + f(ps[|ps| - 1])
  }

  /** The characters of all the parts. */
  function CharsOfAll(ps: seq<string>): set<char> {
    if ps == [] then {} else CharsOfAll(ps[..|ps| - 1]) + Chars(ps[|ps| - 1])
  }

  lemma CharsOfAllSnoc(ps: seq<string>, i: nat)
    requires i < |ps|
    ensures CharsOfAll(ps[..i + 1]) == CharsOfAll(ps[..i]) + Chars(ps[i])
  {
    assert ps[..i + 1][..i] == ps[..i];
  }

  lemma {:induction false} CharsOfAllAppend(a: seq<string>, b: seq<string>)
    ensures CharsOfAll(a + b) == CharsOfAll(a) + CharsOfAll(b)
    decreases |b|
  {
    if b == [] {
      assert a + b == a;
    } else {
      assert (a + b)[..|a + b| - 1] == a + b[..|b| - 1];
      CharsOfAllAppend(a, b[..|b| - 1]);
    }
  }

  lemma {:induction false} CharsOfConcat(ps: seq<string>)
    ensures Chars(Concat(ps)) == CharsOfAll(ps)
  {
    if ps != [] {
      CharsOfConcat(ps[1..]);
      CharsAppend(ps[0], Concat(ps[1..]));
      CharsOfAllAppend([ps[0]], ps[1..]);
      assert [ps[0]] + ps[1..] == ps;
      assert ([ps[0]])[..0] == [];
    }
  }

  lemma {:induction false} CharsOfJoin(ps: seq<string>, sep: string)
    requires |ps| >= 1
    ensures CharsOfAll(ps) <= Chars(Join(ps, sep))
  {
    if |ps| == 1 {
      assert ps == [] + [ps[0]];
    } else {
      CharsOfJoin(ps[1..], sep);
      CharsAppend(ps[0] + sep, Join(ps[1..], sep));
      CharsAppend(ps[0], sep);
      CharsOfAllAppend([ps[0]], ps[1..]);
      assert [ps[0]] + ps[1..] == ps;
      assert ([ps[0]])[..0] == [];
    }
  }

  /**
   * What splitting a reference adds to the alphabet: on whitespace, exactly
   * its characters other than whitespace; on a separator, no character the
   * reference did not have.
   */
  lemma SplitChars(s: string, splitBy: Option<string>)
    requires Split(s, splitBy).Some?
    ensures CharsOfAll(Split(s, splitBy).value) <= Chars(s)
    ensures splitBy.None? ==> CharsOfAll(Split(s, splitBy).value) == Chars(RemoveSpace(s))
  {
    match splitBy
    case None =>
      SplitSpacePieces(s);
      CharsOfConcat(SplitSpace(s));
      RemoveSpaceChars(s);
    case Some(sep) =>
      CharsOfJoin(SplitOn(s, sep), sep);
      JoinSplitOn(s, sep);
  }

  lemma {:induction false} RemoveSpaceChars(s: string)
    ensures Chars(RemoveSpace(s)) <= Chars(s)
  {
    if s != [] {
      RemoveSpaceChars(s[1..]);
      CharsAppend(if IsSpace(s[0]) then [] else [s[0]], RemoveSpace(s[1..]));
      CharsAppend([s[0]], s[1..]);
      assert s == [s[0]] + s[1..];
    }
  }

  lemma {:induction false} TakeWordOfWord(w: string)
    requires forall i :: 0 <= i < |w| ==> !IsSpace(w[i])
    ensures TakeWord(w) == (w, [])
  {
    if w != [] {
      TakeWordOfWord(w[1..]);
      assert [w[0]] + w[1..] == w;
    }
  }

  /** A reference without whitespace is one part on its own. */
  lemma SplitSpaceOfWord(w: string)
    requires w != [] && forall i :: 0 <= i < |w| ==> !IsSpace(w[i])
    ensures SplitSpace(w) == [w]
  {
    assert DropSpace(w) == w;
    TakeWordOfWord(w);
    assert SplitSpace([]) == [];
  }

  /** Which text of a file the split key scores: `relative_path` or `relative_path_lower`. */
  datatype ApplyF = RelativePath | RelativePathLower

  /** A directory entry, as far as the sort key reads it. */
  datatype Item = Item(relativePath: string)

  function Apply(f: ApplyF, item: Item): (r: string)
    ensures |r| == |item.relativePath|
    ensures f == RelativePathLower ==> forall i :: 0 <= i < |r| ==> !IsUpper(r[i])
  {
    match f
    case RelativePath => item.relativePath
    case RelativePathLower => Lower(item.relativePath)
  }

  /**
   * The split key's score of query `q` against the parts: the sum of the plain
   * key's score against each part, 0 without parts; no parts list at all
   * fails, and so does an empty query once there is a part to score.
   */
  function SplitScore(align: Aligner, q: string, parts: Option<seq<string>>, alphabet: set<char>): (r: Option<int>)
    ensures parts.None? ==> r.None?
    ensures parts == Some([]) ==> r == Some(0)
    ensures parts.Some? && parts.value != [] ==> (r.None? <==> q == [])
  {
    match parts
    case None => None
    case Some(ps) =>
      if ps == [] then Some(0)
      else if q == [] then None
      else Some(SumOver(p => align(q, p, -GapOpenScore, -GapExtendScore, Matrix(alphabet + Chars(q), MatchScore, MismatchScore)), ps))
  }

  /** With one part the split key scores exactly like the plain key. */
  lemma SplitScoreOfOnePart(align: Aligner, q: string, p: string, alphabet: set<char>)
    ensures SplitScore(align, q, Some([p]), alphabet) == BaseScore(align, q, Some(p), alphabet + Chars(q))
  {
    assert ([p])[..0] == [];
    if q != [] {
      assert q[0] in Chars(q);
      var f := p' => align(q, p', -GapOpenScore, -GapExtendScore, Matrix(alphabet + Chars(q), MatchScore, MismatchScore));
      assert SumOver(f, [p]) == f(p);
    }
  }

  /** A whitespace-split reference that is a single word scores like the plain key against that word. */
  lemma SplitScoreOfWord(align: Aligner, q: string, w: string, alphabet: set<char>)
    requires w != [] && forall i :: 0 <= i < |w| ==> !IsSpace(w[i])
    ensures SplitScore(align, q, Split(w, None), alphabet) == BaseScore(align, q, Some(w), alphabet + Chars(q))
  {
    SplitSpaceOfWord(w);
    SplitScoreOfOnePart(align, q, w, alphabet);
  }

  /**
   * `SwSplitApplySortKey`, a `SwSortKey` that splits its reference with
   * `splitBy`, scores `applyF(item)` against every part and sums. The plain key
   * it extends is `base`.
   */
  class SwSplitApplySortKey {
    const base: SwSortKey
    const splitBy: Option<string>
    var applyF: ApplyF
    var referenceStrings: Option<seq<string>>

    constructor (align: Aligner, splitBy: Option<string>, applyF: ApplyF)
      ensures fresh(base) && base.Valid() && base.align == align
      ensures base.alphabet == {} && base.referenceString == None
      ensures this.splitBy == splitBy && this.applyF == applyF && referenceStrings == None
    {
      base := new SwSortKey(align);
      this.splitBy := splitBy;
      this.applyF := applyF;
      referenceStrings := None;
    }

    /**
     * `set_reference_string`: split the reference, add every part's characters
     * to the alphabet, then store the reference and its parts. An empty
     * separator raises before anything changes (`ok` false).
     */
    method SetReferenceString(reference: string) returns (ok: bool)
      requires base.Valid()
      modifies this`referenceStrings, base
      ensures base.Valid()
      ensures ok <==> Split(reference, splitBy).Some?
      ensures ok ==> referenceStrings == Split(reference, splitBy) && base.referenceString == Some(reference)
      ensures ok ==> base.alphabet == old(base.alphabet) + CharsOfAll(referenceStrings.value)
      ensures !ok ==> referenceStrings == old(referenceStrings) && base.referenceString == old(base.referenceString)
      ensures !ok ==> base.alphabet == old(base.alphabet) && base.matrix == old(base.matrix)
    {
      var split := Split(reference, splitBy);
      if split.None? {
        return false;
      }
      var parts := split.value;
      for i := 0 to |parts|
        invariant base.Valid()
        invariant base.alphabet == old(base.alphabet) + CharsOfAll(parts[..i])
        invariant base.referenceString == old(base.referenceString)
      {
        CharsOfAllSnoc(parts, i);
        base.UpdateAlphabet(parts[i]);
      }
      assert parts[..|parts|] == parts;
      base.referenceString := Some(reference);
      referenceStrings := split;
      ok := true;
    }

    /**
     * `__call__(x)`: score `applyF(x)` against each part in turn, with the
     * plain key's reference set to that part, and sum. The reference is put
     * back afterwards, also when scoring fails.
     */
    method Call(x: Item) returns (r: Option<int>)
      requires base.Valid()
      modifies base
      ensures base.Valid()
      ensures base.referenceString == old(base.referenceString)
      ensures r == SplitScore(base.align, Apply(applyF, x), referenceStrings, old(base.alphabet))
      ensures referenceStrings.Some? && referenceStrings.value != []
        ==> base.alphabet == old(base.alphabet) + Chars(Apply(applyF, x))
      ensures referenceStrings.None? || referenceStrings.value == [] ==> base.alphabet == old(base.alphabet)
    {
      var original := base.referenceString;
      var q := Apply(applyF, x);
      if referenceStrings.None? {
        base.referenceString := original;
        return None;
      }
      var parts := referenceStrings.value;
      ghost var f := p => base.align(q, p, -GapOpenScore, -GapExtendScore, Matrix(old(base.alphabet) + Chars(q), MatchScore, MismatchScore));
      var total := 0;
      var i := 0;
      while i < |parts|
        invariant 0 <= i <= |parts|
        invariant base.Valid()
        invariant i == 0 ==> base.alphabet == old(base.alphabet)
        invariant i > 0 ==> base.alphabet == old(base.alphabet) + Chars(q) && q != []
        invariant total == SumOver(f, parts[..i])
      {
        base.referenceString := Some(parts[i]);
        if q != [] {
          assert q[0] in Chars(q);
        }
        var s := base.Call(q);
        if s.None? {
          assert q == [];
          base.referenceString := original;
          return None;
        }
        assert parts[..i + 1][..i] == parts[..i];
        total := total + s.value;
        i := i + 1;
      }
      assert parts[..|parts|] == parts;
      base.referenceString := original;
      r := Some(total);
    }
  }

  /**
   * `sw_nav` of smith_waterman.py: the flags and the reference typed on the
   * console. `quick` points the shared key at the reference and at the paths
   * it is compared with, lowered for both when case is ignored.
   */
  class SwNav {
    const flags: string
    const reference: string

    constructor (flags: string, reference: string)
      ensures this.flags == flags && this.reference == reference
    {
      this.flags := flags;
      this.reference := reference;
    }

    method Quick(key: SwSplitApplySortKey) returns (ok: bool)
      requires key.base.Valid()
      modifies key, key.base
      ensures key.base.Valid()
      ensures ok <==> Split(EffectiveReference(flags, reference), key.splitBy).Some?
      ensures ok ==> key.base.referenceString == Some(EffectiveReference(flags, reference))
      ensures ok ==> key.referenceStrings == Split(EffectiveReference(flags, reference), key.splitBy)
      ensures ok ==> key.applyF == if IgnoreCase(flags, reference) then RelativePathLower else RelativePath
      ensures ok ==> key.base.alphabet == old(key.base.alphabet) + CharsOfAll(key.referenceStrings.value)
      ensures !ok ==> key.applyF == old(key.applyF)
      ensures !ok ==> key.referenceStrings == old(key.referenceStrings) && key.base.referenceString == old(key.base.referenceString)
      ensures !ok ==> key.base.alphabet == old(key.base.alphabet) && key.base.matrix == old(key.base.matrix)
    {
      var ignoreCase := 'i' in flags || ('s' in flags && IsLower(reference));
      if ignoreCase {
        ok := key.SetReferenceString(Lower(reference));
        if ok {
          key.applyF := RelativePathLower;
        }
      } else {
        ok := key.SetReferenceString(reference);
        if ok {
          key.applyF := RelativePath;
        }
      }
    }
  }
}
