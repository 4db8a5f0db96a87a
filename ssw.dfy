/**
 * The character alphabet that smith_waterman/ssw.py lays over the striped
 * Smith-Waterman library: the maps between characters and the small integers
 * the library aligns, and the score matrix `TextAligner.set_mat` builds for it.
 * The library itself is not part of this model.
 */
module Ssw {
  import opened Arith

  /** `DefaultGetter(d, default)`: `getter[x]` is `d.get(x, default)`. */
  datatype DefaultGetter<K, V> = DefaultGetter(d: map<K, V>, default: V) {
    function Get(x: K): (r: V)
      ensures x in d ==> r == d[x]
      ensures x !in d ==> r == default
    {
      if x in d then d[x] else default
    }
  }

  predicate Distinct(s: string) {
    forall a, b :: 0 <= a < b < |s| ==> s[a] != s[b]
  }

  /** The last position of `c` in `s`. */
  function LastIndex(s: string, c: char): (r: nat)
    requires c in s
    ensures r < |s| && s[r] == c
    ensures forall j :: r < j < |s| ==> s[j] != c
  {
    if s[|s| - 1] == c then |s| - 1 else LastIndex(s[..|s| - 1], c)
  }

  /** `{c: i + 1 for i, c in enumerate(charset)}`: a repeated character keeps its last position. */
  function CodesAsWritten(charset: string): (r: map<char, nat>)
    ensures forall c :: c in r <==> c in charset
  {
    map c | c in charset :: LastIndex(charset, c) + 1
  }

  /** `{v: k for k, v in b2i.iteritems()}`: every code back to its character. */
  function CharsAsWritten(charset: string): (r: map<int, char>)
  {
    map i | 1 <= i <= |charset| && IsLastOccurrence(charset, i) :: charset[i - 1]
  }

  /** Code `i` is the one `charset[i - 1]` keeps: no later copy of that character follows. */
  predicate IsLastOccurrence(charset: string, i: int)
    requires 1 <= i <= |charset|
  {
    LastIndex(charset, charset[i - 1]) == i - 1
  }

  /** `base_to_int` as `TextAligner.__init__` builds it: unknown characters are 0. */
  function BaseToIntAsWritten(charset: string): DefaultGetter<char, nat> {
    DefaultGetter(CodesAsWritten(charset), 0)
  }

  /** `int_to_base` as `TextAligner.__init__` builds it: unknown codes are `'?'`. */
  function IntToBaseAsWritten(charset: string): DefaultGetter<int, char> {
    DefaultGetter(CharsAsWritten(charset), '?')
  }

  lemma LastIndexOfDistinct(s: string, i: nat)
    requires Distinct(s) && i < |s|
    ensures LastIndex(s, s[i]) == i
  {
  }

  /** For a charset of distinct characters, `charset[i]` is coded `i + 1` and any other character 0. */
  lemma BaseToIntOfDistinct(charset: string, c: char)
    requires Distinct(charset)
    ensures forall i :: 0 <= i < |charset| ==> BaseToIntAsWritten(charset).Get(charset[i]) == i + 1
    ensures c !in charset ==> BaseToIntAsWritten(charset).Get(c) == 0
  {
    forall i | 0 <= i < |charset| ensures BaseToIntAsWritten(charset).Get(charset[i]) == i + 1 {
      LastIndexOfDistinct(charset, i);
    }
  }

  /** For a charset of distinct characters, code `i` in 1..n is `charset[i - 1]`, any other code `'?'`. */
  lemma IntToBaseOfDistinct(charset: string, i: int)
    requires Distinct(charset)
    ensures 1 <= i <= |charset| ==> IntToBaseAsWritten(charset).Get(i) == charset[i - 1]
    ensures !(1 <= i <= |charset|) ==> IntToBaseAsWritten(charset).Get(i) == '?'
  {
    if 1 <= i <= |charset| {
      LastIndexOfDistinct(charset, i - 1);
    }
  }

  /** `int_to_base` undoes `base_to_int` on every character of the charset, repeated or not. */
  lemma IntToBaseInvertsBaseToInt(charset: string, c: char)
    requires c in charset
    ensures IntToBaseAsWritten(charset).Get(BaseToIntAsWritten(charset).Get(c)) == c
  {
    var k := LastIndex(charset, c);
    assert LastIndex(charset, charset[k]) == k;
  }

  /** ... and `base_to_int` undoes `int_to_base` on every code it knows. */
  lemma BaseToIntInvertsIntToBase(charset: string, i: int)
    requires i in CharsAsWritten(charset)
    ensures BaseToIntAsWritten(charset).Get(IntToBaseAsWritten(charset).Get(i)) == i
  {
  }

  /** The distinct characters of a charset, `set(charset)`. */
  function Chars(s: string): set<char> {
    set c | c in s
  }

  /** The `n` of `set_mat` and `ssw_init`: `len(self._Charset)`. */
  function AlphabetSize(charset: string): nat {
    |Chars(charset)|
  }

  /**
   * With a repeated character the codes outgrow the alphabet: for `"aab"` the
   * alphabet has two characters, so the matrix has rows 0..2, but `'b'` is
   * coded 3.
   */
  lemma RepeatedCharsetCodeOutsideMatrix()
    ensures AlphabetSize("aab") == 2
    ensures BaseToIntAsWritten("aab").Get('b') == 3
  {
    assert Chars("aab") == {'a', 'b'} by {
      assert "aab"[0] == 'a' && "aab"[2] == 'b';
    }
    assert LastIndex("aab", 'b') == 2;
  }

  /** The charset without repeats, each character where it first occurs. */
  function Dedup(s: string): (r: string)
    ensures Distinct(r) && Chars(r) == Chars(s)
  {
    if s == [] then []
    else
      var t := Dedup(s[..|s| - 1]);
      var c := s[|s| - 1];
      assert Chars(s) == Chars(s[..|s| - 1]) + {c} by {
        assert s == s[..|s| - 1] + [c];
      }
      if c in t then t
      else
        assert Chars(t + [c]) == Chars(t) + {c};
        t + [c]
  }

  lemma {:induction false} DistinctCount(s: string)
    requires Distinct(s)
    ensures |Chars(s)| == |s|
  {
    if s != [] {
      var p := s[..|s| - 1];
      assert Distinct(p);
      DistinctCount(p);
      assert s == p + [s[|s| - 1]];
      assert Chars(s) == Chars(p) + {s[|s| - 1]};
      assert s[|s| - 1] !in Chars(p);
    }
  }

  /** `base_to_int` over the charset without repeats: codes 1..n for the n distinct characters. */
  function BaseToInt(charset: string): DefaultGetter<char, nat> {
    BaseToIntAsWritten(Dedup(charset))
  }

  function IntToBase(charset: string): DefaultGetter<int, char> {
    IntToBaseAsWritten(Dedup(charset))
  }

  /** Every code fits the matrix of the alphabet: at most `n` for the `n` distinct characters. */
  lemma CodesFitAlphabet(charset: string, c: char)
    ensures BaseToInt(charset).Get(c) <= AlphabetSize(charset)
    ensures c in charset <==> BaseToInt(charset).Get(c) >= 1
  {
    var d := Dedup(charset);
    DistinctCount(d);
    assert c in charset <==> c in Chars(d);
  }

  /** For a charset without repeats the two agree. */
  lemma DedupOfDistinct(s: string)
    requires Distinct(s)
    ensures Dedup(s) == s
  {
    if s != [] {
      var p := s[..|s| - 1];
      assert Distinct(p);
      DedupOfDistinct(p);
      assert s[|s| - 1] !in Chars(p);
      assert s == p + [s[|s| - 1]];
    }
  }

  /** c_int8: how ctypes stores an int in a signed byte, wrapping around without a check. */
  function Int8(x: int): (r: int)
    ensures -128 <= r < 128
    ensures -128 <= x < 128 ==> r == x
  {
    (x + 128) % 256 - 128
  }

  /**
   * The score of aligning the character coded `row` against the one coded
   * `col`: 0 in row and column 0, `match` on the rest of the diagonal,
   * `-mismatch` everywhere else.
   */
  function Score(row: int, col: int, matchScore: int, mismatch: int): int {
    if row == 0 || col == 0 then 0 else if row == col then matchScore else -mismatch
  }

  /** The flat `(n + 1) * (n + 1)` list entry `k` holds: row `k / (n + 1)`, column `k % (n + 1)`. */
  function Entry(n: nat, k: int, matchScore: int, mismatch: int): int {
    Score(k / (n + 1), k % (n + 1), matchScore, mismatch)
  }

  /** What the list holds after the loop has run for rows `0 .. i - 1`. */
  function Partial(n: nat, i: nat, k: int, matchScore: int, mismatch: int): int {
    var row, col := k / (n + 1), k % (n + 1);
    if (row == 0 && col < i) || (col == 0 && row < i) then 0
    else if row == col && row < i then matchScore
    else -mismatch
  }

  lemma Positions(n: nat, i: nat)
    requires i <= n
    ensures (i * (n + 1) + i) / (n + 1) == i && (i * (n + 1) + i) % (n + 1) == i
    ensures (i * (n + 1)) / (n + 1) == i && (i * (n + 1)) % (n + 1) == 0
    ensures i / (n + 1) == 0 && i % (n + 1) == i
    ensures i * (n + 1) + i < (n + 1) * (n + 1)
  {
    DivModUnique(i * (n + 1) + i, n + 1, i, i);
    DivModUnique(i * (n + 1), n + 1, i, 0);
    DivModUnique(i, n + 1, 0, i);
    assert (n + 1) * (n + 1) - (i * (n + 1) + i) == (n - i) * (n + 1) + (n + 1 - i);
  }

  lemma RowAndColumn(n: nat, k: int)
    requires 0 <= k < (n + 1) * (n + 1)
    ensures 0 <= k / (n + 1) <= n && 0 <= k % (n + 1) <= n
    ensures k == (k / (n + 1)) * (n + 1) + k % (n + 1)
  {
    DivBelow(k, n + 1, n + 1);
  }

  /** One step of the loop changes exactly the three entries it assigns. */
  lemma PartialStep(n: nat, i: nat, k: int, matchScore: int, mismatch: int)
    requires i <= n && 0 <= k < (n + 1) * (n + 1)
    requires k != i * (n + 1) + i && k != i * (n + 1) && k != i
    ensures Partial(n, i + 1, k, matchScore, mismatch) == Partial(n, i, k, matchScore, mismatch)
  {
    RowAndColumn(n, k);
  }

  lemma PartialDone(n: nat, k: int, matchScore: int, mismatch: int)
    requires 0 <= k < (n + 1) * (n + 1)
    ensures Partial(n, n + 1, k, matchScore, mismatch) == Entry(n, k, matchScore, mismatch)
  {
    RowAndColumn(n, k);
  }

  /** `TextAligner`: a charset, the maps built from it and the score matrix. */
  class TextAligner {
    const charset: string
    const baseToInt: DefaultGetter<char, nat>
    const intToBase: DefaultGetter<int, char>
    var mat: array<int>

    constructor (charset: string)
      ensures this.charset == charset
      ensures baseToInt == BaseToInt(charset) && intToBase == IntToBase(charset)
    {
      this.charset := charset;
      baseToInt := BaseToInt(charset);
      intToBase := IntToBase(charset);
      mat := new int[0];
    }

    /**
     * `set_mat(matchScore, mismatch)`: the `(n + 1) * (n + 1)` scores, stored as
     * signed bytes, for the `n` distinct characters.
     */
    method SetMat(matchScore: int, mismatch: int)
      modifies this`mat
      ensures fresh(mat)
      ensures mat.Length == (AlphabetSize(charset) + 1) * (AlphabetSize(charset) + 1)
      ensures forall k :: 0 <= k < mat.Length ==> mat[k] == Int8(Entry(AlphabetSize(charset), k, matchScore, mismatch))
    {
      var n := |set c | c in charset|;
      assert n == AlphabetSize(charset);
      var size := (n + 1) * (n + 1);
      var m := new int[size](_ => -mismatch);
      assert forall k :: 0 <= k < size ==> m[k] == Partial(n, 0, k, matchScore, mismatch) by {
        forall k | 0 <= k < size ensures m[k] == Partial(n, 0, k, matchScore, mismatch) {
          RowAndColumn(n, k);
        }
      }
      for i := 0 to n + 1
        invariant forall k :: 0 <= k < size ==> m[k] == Partial(n, i, k, matchScore, mismatch)
      {
        Positions(n, i);
        SetRow(m, n, i, matchScore, mismatch);
      }
      var stored := new int[size];
      forall k | 0 <= k < size {
        stored[k] := Int8(m[k]);
      }
      forall k | 0 <= k < size ensures stored[k] == Int8(Entry(n, k, matchScore, mismatch)) {
        PartialDone(n, k, matchScore, mismatch);
      }
      mat := stored;
    }

    /** `ssw_init(read, readLen, mat, n, score_size)` hands the library `n + 1` for the charset's `n`, whatever `n` it is given. */
    method SswInitSize(n: int) returns (size: nat)
      ensures size == AlphabetSize(charset) + 1
    {
      size := |set c | c in charset| + 1;
    }
  }

  /** Row `i` of the loop: the diagonal entry, then column 0, then row 0. */
  method SetRow(m: array<int>, n: nat, i: nat, matchScore: int, mismatch: int)
    requires i <= n && m.Length == (n + 1) * (n + 1)
    requires forall k :: 0 <= k < m.Length ==> m[k] == Partial(n, i, k, matchScore, mismatch)
    modifies m
    ensures forall k :: 0 <= k < m.Length ==> m[k] == Partial(n, i + 1, k, matchScore, mismatch)
  {
    Positions(n, i);
    m[i * (n + 1) + i] := matchScore;
    m[i * (n + 1)] := 0;
    m[i] := 0;
    forall k | 0 <= k < m.Length ensures m[k] == Partial(n, i + 1, k, matchScore, mismatch) {
      if k != i * (n + 1) + i && k != i * (n + 1) && k != i {
        PartialStep(n, i, k, matchScore, mismatch);
      }
    }
  }
}
