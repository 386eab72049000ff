/**
 * The list of MIME types offered in QuickGet's content-type box: the four
 * built-in types, then the extra types from the `extraMimes` setting, then
 * the selected type from the `mime` setting, each added only when it is not
 * already in the list.
 */
module MimeTypes {
  import opened Wrappers
  import opened JavaString
  import opened Settings

  const MIME_OCTET_STREAM: string := "application/octet-stream"
  const MIME_GIF: string := "image/gif"
  const MIME_JPG: string := "image/jpg"
  const MIME_PNG: string := "image/png"

  const BUILTIN_MIMES: seq<string> := [MIME_OCTET_STREAM, MIME_GIF, MIME_JPG, MIME_PNG]

  predicate NoDuplicates(xs: seq<string>) {
    forall i, j :: 0 <= i < j < |xs| ==> xs[i] != xs[j]
  }

  /** The strings of `xs` that are not blank, in order. */
  function NonBlank(xs: seq<string>): (r: seq<string>)
    ensures |r| <= |xs|
  {
    if xs == [] then []
    else if EmptyString(Some(xs[0])) then NonBlank(xs[1..])
    else [xs[0]] + NonBlank(xs[1..])
  }

  /** `NonBlank` keeps exactly the strings of `xs` that are not blank. */
  lemma {:induction false} NonBlankMembers(xs: seq<string>)
    ensures forall x :: x in NonBlank(xs) <==> x in xs && !EmptyString(Some(x))
  {
    if xs != [] {
      NonBlankMembers(xs[1..]);
      assert xs == [xs[0]] + xs[1..];
    }
  }

  /**
   * The extra types of the `extraMimes` setting: the setting split at every
   * comma, blank parts dropped. The parts are not trimmed.
   */
  function ExtraMimes(setting: string): seq<string> {
    NonBlank(Split(setting, ','))
  }

  /** Dropping the empty fields at the end never changes which fields are non-blank. */
  lemma {:induction false} NonBlankDropTrailingEmpty(fields: seq<string>)
    ensures NonBlank(DropTrailingEmpty(fields)) == NonBlank(fields)
  {
    if fields != [] && fields[|fields| - 1] == [] {
      var init := fields[..|fields| - 1];
      assert DropTrailingEmpty(fields) == DropTrailingEmpty(init);
      NonBlankDropTrailingEmpty(init);
      assert init + [[]] == fields;
      assert EmptyString(Some([]));
      NonBlankAppendBlank(init, []);
    }
  }

  lemma {:induction false} NonBlankAppendBlank(xs: seq<string>, blank: string)
    requires EmptyString(Some(blank))
    ensures NonBlank(xs + [blank]) == NonBlank(xs)
  {
    if xs != [] {
      NonBlankAppendBlank(xs[1..], blank);
      assert (xs + [blank])[0] == xs[0];
      assert (xs + [blank])[1..] == xs[1..] + [blank];
    } else {
      assert NonBlank([blank]) == NonBlank([]);
    }
  }

  /**
   * The extra types are exactly the non-blank comma-separated fields of the
   * setting, whatever `split` does with the empty fields at the end.
   */
  lemma ExtraMimesAreFields(setting: string)
    ensures ExtraMimes(setting) == NonBlank(Fields(setting, ','))
  {
    if ',' in setting {
      NonBlankDropTrailingEmpty(Fields(setting, ','));
    } else {
      FieldsOfPlain(setting, ',');
    }
  }

  /** Appends, in order, every element of `xs` that is not yet in the list being built. */
  function AppendAbsent(list: seq<string>, xs: seq<string>): seq<string>
    decreases |xs|
  {
    if xs == [] then list
    else AppendAbsent(if xs[0] in list then list else list + [xs[0]], xs[1..])
  }

  /**
   * The content-type list for the `extraMimes` setting `extraSetting` and
   * the `mime` setting `selected`.
   */
  function MimeList(extraSetting: string, selected: string): seq<string> {
    var list := AppendAbsent(BUILTIN_MIMES, ExtraMimes(extraSetting));
    if selected in list then list else list + [selected]
  }

  /**
   * What `AppendAbsent` keeps and adds: the list it starts from is a prefix
   * of the result, the result holds exactly the elements of both, and
   * no element is repeated if none was at the start.
   */
  lemma {:induction false} AppendAbsentProperties(list: seq<string>, xs: seq<string>)
    ensures list <= AppendAbsent(list, xs)
    ensures forall x :: x in AppendAbsent(list, xs) <==> x in list || x in xs
    ensures NoDuplicates(list) ==> NoDuplicates(AppendAbsent(list, xs))
    decreases |xs|
  {
    if xs != [] {
      var next := if xs[0] in list then list else list + [xs[0]];
      AppendAbsentProperties(next, xs[1..]);
      assert xs == [xs[0]] + xs[1..];
    }
  }

  /**
   * The list starts with the four built-in types in order, holds exactly the
   * built-in types, the non-blank extra types and the selected type, and
   * holds none of them twice.
   */
  lemma MimeListProperties(extraSetting: string, selected: string)
    ensures BUILTIN_MIMES <= MimeList(extraSetting, selected)
    ensures selected in MimeList(extraSetting, selected)
    ensures forall m :: m in MimeList(extraSetting, selected) <==>
                          m in BUILTIN_MIMES || m in ExtraMimes(extraSetting) || m == selected
    ensures NoDuplicates(MimeList(extraSetting, selected))
  {
    var list := AppendAbsent(BUILTIN_MIMES, ExtraMimes(extraSetting));
    BuiltinsDistinct();
    AppendAbsentProperties(BUILTIN_MIMES, ExtraMimes(extraSetting));
    if selected !in list {
      AppendFresh(list, selected);
    }
  }

  /** The four built-in types are distinct. */
  lemma BuiltinsDistinct()
    ensures NoDuplicates(BUILTIN_MIMES)
  {
    assert MIME_OCTET_STREAM[0] != MIME_GIF[0];
    assert MIME_GIF[6] != MIME_JPG[6] && MIME_GIF[6] != MIME_PNG[6] && MIME_JPG[6] != MIME_PNG[6];
  }

  /** Appending an absent element keeps a list free of repetitions. */
  lemma AppendFresh(list: seq<string>, x: string)
    requires NoDuplicates(list) && x !in list
    ensures NoDuplicates(list + [x])
  {
  }

  /**
   * `AppendAbsent` keeps the order of first occurrences: two new elements,
   * each met for the first time in `xs`, appear in the result in the order
   * `xs` has them.
   */
  lemma {:induction false} AppendAbsentOrder(list: seq<string>, xs: seq<string>, i: int, j: int)
    requires 0 <= i < j < |xs|
    requires xs[i] !in list && xs[i] !in xs[..i]
    requires xs[j] !in list && xs[j] !in xs[..j]
    ensures exists p, q :: 0 <= p < q < |AppendAbsent(list, xs)|
                           && AppendAbsent(list, xs)[p] == xs[i] && AppendAbsent(list, xs)[q] == xs[j]
    decreases |xs|
  {
    var next := if xs[0] in list then list else list + [xs[0]];
    var r := AppendAbsent(list, xs);
    assert r == AppendAbsent(next, xs[1..]);
    assert xs[1..][..j - 1] == xs[1..j];
    assert xs[j] !in next by {
      assert xs[0] == xs[..j][0];
    }
    if i == 0 {
      AppendAbsentProperties(next, xs[1..]);
      AppendAbsentNotYet(next, xs[1..], j - 1);
      assert r[|list|] == xs[0];
      var q :| |next| <= q < |r| && r[q] == xs[j];
    } else {
      assert xs[1..][..i - 1] == xs[1..i];
      assert xs[i] !in next by {
        assert xs[0] == xs[..i][0];
      }
      AppendAbsentOrder(next, xs[1..], i - 1, j - 1);
    }
  }

  /** An element not in the starting list and met for the first time at `k` lands after that list. */
  lemma {:induction false} AppendAbsentNotYet(list: seq<string>, xs: seq<string>, k: int)
    requires 0 <= k < |xs| && xs[k] !in list && xs[k] !in xs[..k]
    ensures exists q :: |list| <= q < |AppendAbsent(list, xs)| && AppendAbsent(list, xs)[q] == xs[k]
    decreases |xs|
  {
    var next := if xs[0] in list then list else list + [xs[0]];
    var r := AppendAbsent(list, xs);
    assert r == AppendAbsent(next, xs[1..]);
    AppendAbsentProperties(next, xs[1..]);
    if k == 0 {
      assert r[|list|] == xs[0];
    } else {
      assert xs[1..][..k - 1] == xs[1..k];
      assert xs[k] !in next by {
        assert xs[0] == xs[..k][0];
      }
      AppendAbsentNotYet(next, xs[1..], k - 1);
      var q :| |next| <= q < |r| && r[q] == xs[k];
    }
  }

  /**
   * The combo-box set-up of `createFilePanel`: starts from the built-in
   * types, adds each extra type that is not yet present, then the selected
   * type if it is absent; the selected item is the `mime` setting.
   */
  method BuildMimeList(extraSetting: string, selectedSetting: string) returns (mimes: seq<string>, selected: string)
    ensures mimes == MimeList(extraSetting, selectedSetting)
    ensures selected == selectedSetting && selected in mimes
  {
    mimes := BUILTIN_MIMES;
    var extras := ExtraMimes(extraSetting);
    var i := 0;
    while i < |extras|
      invariant 0 <= i <= |extras|
      invariant AppendAbsent(mimes, extras[i..]) == AppendAbsent(BUILTIN_MIMES, extras)
    {
      assert extras[i..][1..] == extras[i + 1..];
      if extras[i] !in mimes {
        mimes := mimes + [extras[i]];
      }
      i := i + 1;
    }
    selected := selectedSetting;
    if selected !in mimes {
      mimes := mimes + [selected];
    }
  }
}
