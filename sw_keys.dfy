/**
 * The sort key of smith_waterman/__init__.py: a wrapped Smith-Waterman key
 * (ssw or swalign, both a parameter here) that `SplitTransformKey` points at
 * every part of the reference in turn, summing the scores; and `sw_nav`, which
 * switches ranger's sort settings to that key and back.
 */
module SwKeys {
  import opened Options
  import opened Text
  import SortKeys

  /** `CaseSensitiveStr(s).upper()`: the text as it is. */
  function CaseSensitiveUpper(s: string): string {
    s
  }

  /**
   * The wrapper keeps swalign from upper-casing: its `upper` differs from
   * `str.upper` exactly on text with a lower-case letter.
   */
  lemma CaseSensitiveKeepsCase(s: string)
    ensures Upper(CaseSensitiveUpper(s)) != CaseSensitiveUpper(s) <==> exists i :: 0 <= i < |s| && IsLowerChar(s[i])
  {
    if exists i :: 0 <= i < |s| && IsLowerChar(s[i]) {
      var i :| 0 <= i < |s| && IsLowerChar(s[i]);
      assert Upper(s)[i] != s[i];
    } else {
      assert Upper(s) == s;
    }
  }

  /** The score an aligner gives text `item` against reference `ref`. */
  type Aligner = (string, string) -> int

  /**
   * The wrapped key's score (`SswKey` or `SwKey`, `__call__`): the alignment
   * score of the item against the reference; an empty item fails dividing by
   * its length.
   */
  function KeyScore(align: Aligner, ref: string, item: string): (r: Option<int>)
    ensures r.None? <==> item == []
    ensures r.Some? ==> r.value == align(ref, item)
  {
    if item == [] then None else Some(align(ref, item))
  }

  /** `SswKey` / `SwKey`: a reference and an aligner. */
  class Key {
    var ref: string
    const align: Aligner

    /** `KeyBase.__init__` with the default reference `''`. */
    constructor (align: Aligner)
      ensures ref == [] && this.align == align
    {
      ref := [];
      this.align := align;
    }

    method SetRef(x: string)
      modifies this`ref
      ensures ref == x
    {
      ref := x;
    }

    method Call(item: string) returns (r: Option<int>)
      ensures r == KeyScore(align, ref, item)
    {
      if |item| == 0 {
        return None;
      }
      r := Some(align(ref, item));
    }
  }

  /**
   * `SplitTransformKey.__call__`'s result for transformed item `q`: the sum of
   * the wrapped key's scores against each part, 0 without parts, and a failure
   * for an empty item once there is a part to score.
   */
  function SplitSum(align: Aligner, refs: seq<string>, q: string): (r: Option<int>)
    ensures refs == [] ==> r == Some(0)
    ensures refs != [] ==> (r.None? <==> q == [])
  {
    if refs == [] then Some(0)
    else if q == [] then None
    else Some(SortKeys.SumOver(p => align(p, q), refs))
  }

  /** With one part the split key scores exactly like the wrapped key. */
  lemma SplitSumOfOnePart(align: Aligner, p: string, q: string)
    ensures SplitSum(align, [p], q) == KeyScore(align, p, q)
  {
    assert ([p])[..0] == [];
    if q != [] {
      var f := p' => align(p', q);
      assert SortKeys.SumOver(f, [p]) == f(p);
    }
  }

  /** The reference the wrapped key is left with after a call. */
  function LastRef(refs: seq<string>, q: string, before: string): (r: string)
    ensures refs == [] ==> r == before
    ensures refs != [] && q != [] ==> r == refs[|refs| - 1]
  {
    if refs == [] then before else if q == [] then refs[0] else refs[|refs| - 1]
  }

  /** `SplitTransformKey(key, splitBy, transF)`. */
  class SplitTransformKey {
    const key: Key
    const splitBy: Option<string>
    var transF: SortKeys.ApplyF
    var refs: seq<string>

    constructor (key: Key, splitBy: Option<string>, transF: SortKeys.ApplyF)
      ensures this.key == key && this.splitBy == splitBy && this.transF == transF
      ensures refs == []
    {
      this.key := key;
      this.splitBy := splitBy;
      this.transF := transF;
      refs := [];
    }

    /** `setRef(x)`: the parts of `x`; an empty separator raises and keeps the old parts. */
    method SetRef(x: string) returns (ok: bool)
      modifies this`refs
      ensures ok <==> Split(x, splitBy).Some?
      ensures refs == if ok then Split(x, splitBy).value else old(refs)
    {
      var split := Split(x, splitBy);
      if split.None? {
        return false;
      }
      refs := split.value;
      ok := true;
    }

    /**
     * `__call__(item)`: transform the item once, then for each part point the
     * wrapped key at it and add its score. The wrapped key keeps the last part
     * it was pointed at.
     */
    method Call(item: SortKeys.Item) returns (r: Option<int>)
      modifies key`ref
      ensures r == SplitSum(key.align, refs, SortKeys.Apply(transF, item))
      ensures key.ref == LastRef(refs, SortKeys.Apply(transF, item), old(key.ref))
    {
      var q := SortKeys.Apply(transF, item);
      ghost var f := p => key.align(p, q);
      var total := 0;
      for i := 0 to |refs|
        invariant total == SortKeys.SumOver(f, refs[..i])
        invariant i == 0 ==> key.ref == old(key.ref)
        invariant i > 0 ==> key.ref == refs[i - 1] && q != []
      {
        key.SetRef(refs[i]);
        var s := key.Call(q);
        if s.None? {
          return None;
        }
        assert refs[..i + 1][..i] == refs[..i];
        total := total + s.value;
      }
      assert refs[..|refs|] == refs;
      r := Some(total);
    }
  }

  /** The three ranger settings `sw_nav` saves: `sort`, `sort_reverse`, `sort_directories_first`. */
  datatype SortSettings = SortSettings(sort: string, sortReverse: bool, sortDirectoriesFirst: bool)

  /** Descending Smith-Waterman score, directories not first. */
  const SmithWatermanSort: SortSettings := SortSettings("smith waterman", true, false)

  /** ranger's `fm.settings`, as far as the sort goes. */
  class Settings {
    var current: SortSettings

    constructor (current: SortSettings)
      ensures this.current == current
    {
      this.current := current;
    }
  }

  /** The class attribute `sw_nav.SortSettings`, shared by every `sw_nav` command. */
  class SavedSettings {
    var saved: Option<SortSettings>

    constructor ()
      ensures saved == None
    {
      saved := None;
    }
  }

  /** `sw_nav` of smith_waterman/__init__.py: the flags and the reference typed on the console. */
  class SwNav {
    const flags: string
    const reference: string

    constructor (flags: string, reference: string)
      ensures this.flags == flags && this.reference == reference
    {
      this.flags := flags;
      this.reference := reference;
    }

    /**
     * `quick`: on the first keystroke save the settings and switch to the
     * Smith-Waterman sort; every keystroke then points the global key at the
     * reference, lowered with the paths when case is ignored.
     */
    method Quick(memory: SavedSettings, settings: Settings, key: SplitTransformKey) returns (ok: bool)
      modifies memory, settings, key
      ensures old(memory.saved).None? ==> memory.saved == Some(old(settings.current)) && settings.current == SmithWatermanSort
      ensures old(memory.saved).Some? ==> memory.saved == old(memory.saved) && settings.current == old(settings.current)
      ensures ok <==> Split(EffectiveReference(flags, reference), key.splitBy).Some?
      ensures ok ==> key.refs == Split(EffectiveReference(flags, reference), key.splitBy).value
      ensures ok ==> key.transF == if IgnoreCase(flags, reference) then SortKeys.RelativePathLower else SortKeys.RelativePath
      ensures !ok ==> key.refs == old(key.refs) && key.transF == old(key.transF)
    {
      if memory.saved.None? {
        memory.saved := Some(settings.current);
        settings.current := SmithWatermanSort;
      }
      var ignoreCase := 'i' in flags || ('s' in flags && IsLower(reference));
      if ignoreCase {
        ok := key.SetRef(Lower(reference));
        if ok {
          key.transF := SortKeys.RelativePathLower;
        }
      } else {
        ok := key.SetRef(reference);
        if ok {
          key.transF := SortKeys.RelativePath;
        }
      }
    }

    /** `cancel`: put the saved settings back and forget them; nothing when none are saved. */
    method Cancel(memory: SavedSettings, settings: Settings)
      modifies memory, settings
      ensures old(memory.saved).Some? ==> settings.current == old(memory.saved.value)
      ensures old(memory.saved).None? ==> settings.current == old(settings.current)
      ensures memory.saved == None
    {
      if memory.saved.Some? {
        settings.current := memory.saved.value;
        memory.saved := None;
      }
    }
  }
}
