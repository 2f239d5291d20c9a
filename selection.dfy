/** The preset picker and the "Save as" and "Delete" buttons built on it.
    What the user does in a dialog is an input: the text the picker returns
    (None when the dialog is dismissed or nothing is selected) and the
    answer to a yes/no confirmation. */
module Selection {
  import opened Wrappers
  import opened Gains
  import opened Config
  import opened Presets
  import opened PresetDir

  /** Index of the last preset whose name collates equal to `name`, or -1
      when none does. */
  function LastMatchIndex(collate: (string, string) -> int, presets: seq<Doc>, name: string): (k: int)
    ensures -1 <= k < |presets|
    ensures 0 <= k ==> collate(presets[k].name, name) == 0
    ensures forall j | k < j < |presets| :: collate(presets[j].name, name) != 0
  {
    if presets == [] then -1
    else if collate(presets[|presets| - 1].name, name) == 0 then |presets| - 1
    else LastMatchIndex(collate, presets[..|presets| - 1], name)
  }

  /** The preset the picker's text selects: the last one in the list whose
      name collates equal to it (each match replaces the previous one). */
  function Matching(collate: (string, string) -> int, presets: seq<Doc>, name: string): Option<Doc>
  {
    var k := LastMatchIndex(collate, presets, name);
    if k < 0 then None else Some(presets[k])
  }

  /** A match is a preset of the list with that collated name; no match
      means no preset of the list has it. */
  lemma MatchingFound(collate: (string, string) -> int, presets: seq<Doc>, name: string)
    ensures Matching(collate, presets, name).Some? ==>
              Matching(collate, presets, name).value in presets &&
              collate(Matching(collate, presets, name).value.name, name) == 0
    ensures Matching(collate, presets, name).None? <==>
              forall doc | doc in presets :: collate(doc.name, name) != 0
  {
    var k := LastMatchIndex(collate, presets, name);
    if k < 0 {
      forall doc | doc in presets
        ensures collate(doc.name, name) != 0
      {
        var j :| 0 <= j < |presets| && presets[j] == doc;
      }
    }
  }

  /** Matching a name against a directory's listing finds a parsed file of
      the directory whose name collates equal to it, when there is one. */
  lemma MatchingListed(files: map<string, Option<Element>>, opens: bool,
                       collate: (string, string) -> int, order: seq<string>, name: string)
    requires IsCollation(collate) && IsListing(order, files)
    ensures var m := Matching(collate, Listed(files, opens, collate, order), name);
            && (m.Some? ==> opens && IsLoaded(files, m.value) && collate(m.value.name, name) == 0)
            && (m.None? <==> !opens || forall file | file in files && files[file].Some? :: collate(file, name) != 0)
  {
    var presets := Listed(files, opens, collate, order);
    ListedPresets(files, opens, collate, order);
    MatchingFound(collate, presets, name);
    if opens && Matching(collate, presets, name).None? {
      forall file | file in files && files[file].Some?
        ensures collate(file, name) != 0
      {
        assert Doc(file, files[file]) in presets;
      }
    }
  }

  /** `dialog_choose_preset`: lists the directory, lets the user pick, and
      returns the picked preset. `allowNew` stands for the `allow_new`
      pointer (None for NULL). With no presets and no pointer, nothing is
      returned. When new names are allowed, a picked name that matches no
      preset gives a new document of that name, flagged new; a match is
      flagged as existing. Otherwise only a match is returned. */
  method ChoosePreset(dir: Directory, collate: (string, string) -> int, order: seq<string>,
                      allowNew: Option<bool>, picked: Option<string>)
    returns (chosen: Option<Doc>, allowNewAfter: Option<bool>)
    ensures var presets := Listed(dir.files, dir.opens, collate, order);
            if picked.None? || (presets == [] && allowNew.None?) then
              chosen.None? && allowNewAfter == allowNew
            else if allowNew == Some(true) then
              var m := Matching(collate, presets, picked.value);
              if m.Some? then chosen == m && allowNewAfter == Some(false)
              else chosen == Some(Doc(picked.value, None)) && allowNewAfter == Some(true)
            else
              chosen == Matching(collate, presets, picked.value) && allowNewAfter == allowNew
  {
    var presets := dir.PreloadAll(collate, order);
    allowNewAfter := allowNew;
    if presets == [] && allowNew.None? {
      return None, allowNewAfter;
    }
    var selected: Option<Doc> := None;
    var i := 0;
    while i < |presets|
      invariant 0 <= i <= |presets|
      invariant selected == if picked.Some? then Matching(collate, presets[..i], picked.value) else None
    {
      assert presets[..i + 1][..i] == presets[..i];
      if picked.Some? && collate(presets[i].name, picked.value) == 0 {
        selected := Some(presets[i]);
      }
      i := i + 1;
    }
    assert presets[..|presets|] == presets;
    chosen := selected;
    if picked.Some? && allowNew == Some(true) {
      if selected.Some? {
        allowNewAfter := Some(false);
      } else {
        chosen := Some(Doc(picked.value, None));
        allowNewAfter := Some(true);
      }
    }
  }

  /** Every listed preset has a root: only files that parse are listed. */
  lemma ListedHaveRoots(files: map<string, Option<Element>>, opens: bool,
                        collate: (string, string) -> int, order: seq<string>)
    ensures forall doc | doc in Listed(files, opens, collate, order) :: doc.root.Some?
  {
    if opens {
      var read := ParsedEntries(files, order);
      SortByNamePermutes(collate, read);
      ParsedEntriesExactly(files, order);
      assert forall doc :: doc in Listed(files, opens, collate, order) <==> doc in multiset(read);
    }
  }

  /** `open_button_cb`: picks an existing preset and loads it into the
      store; the store is untouched when nothing matches. */
  method Open(dir: Directory, client: Client, collate: (string, string) -> int, order: seq<string>,
              picked: Option<string>)
    modifies client
    ensures var m := if picked.Some? then Matching(collate, Listed(dir.files, dir.opens, collate, order), picked.value)
                     else None;
            && (m.Some? ==> m.value.root.Some? &&
                            client.entries == ApplyBands(old(client.entries), m.value.root.value.children))
            && (m.None? ==> client.entries == old(client.entries))
  {
    var preset, _ := ChoosePreset(dir, collate, order, None, picked);
    if preset.Some? {
      ListedHaveRoots(dir.files, dir.opens, collate, order);
      MatchingFound(collate, Listed(dir.files, dir.opens, collate, order), picked.value);
      PresetLoad(client, preset.value);
    }
  }

  /** The file "Save as" writes, if any: the picked name when it matches no
      listed preset; the matching preset's own name when it does and the
      user confirms the overwrite; nothing when the dialog is dismissed. */
  function SaveAsTarget(collate: (string, string) -> int, presets: seq<Doc>,
                        picked: Option<string>, confirm: bool): Option<string>
  {
    match picked
    case None => None
    case Some(name) =>
      match Matching(collate, presets, name)
      case Some(existing) => if confirm then Some(existing.name) else None
      case None => Some(name)
  }

  /** `save_as_button_cb`: picks a preset, new names allowed, and saves the
      sliders into it, asking first when it already exists. */
  method SaveAs(dir: Directory, collate: (string, string) -> int, order: seq<string>,
                picked: Option<string>, confirm: bool, sliders: array<real>)
    requires sliders.Length == NUM_BANDS
    modifies dir
    ensures dir.opens == old(dir.opens)
    ensures var target := SaveAsTarget(collate, Listed(old(dir.files), dir.opens, collate, order), picked, confirm);
            dir.files == if target.Some? then old(dir.files)[target.value := Some(SavedRoot(sliders[..]))]
                         else old(dir.files)
  {
    var preset, allowNew := ChoosePreset(dir, collate, order, Some(true), picked);
    if preset.Some? {
      if allowNew == Some(false) {
        if confirm {
          var renewed := Doc(preset.value.name, None);
          var _ := dir.PresetSave(renewed, sliders);
        }
      } else {
        var _ := dir.PresetSave(preset.value, sliders);
      }
    }
  }

  /** "Save as" writes under a name that collates equal to the one picked,
      and a readable directory's parsed preset is only overwritten after the
      user confirms. When nothing is written, the dialog was dismissed or an
      overwrite was declined. */
  lemma SaveAsTargetSafe(files: map<string, Option<Element>>, opens: bool,
                         collate: (string, string) -> int, order: seq<string>,
                         picked: Option<string>, confirm: bool)
    requires IsCollation(collate) && IsListing(order, files)
    ensures var target := SaveAsTarget(collate, Listed(files, opens, collate, order), picked, confirm);
            && (target.Some? ==> picked.Some? && collate(target.value, picked.value) == 0)
            && (target.Some? && opens && target.value in files && files[target.value].Some? ==> confirm)
            && (target.None? ==> picked.None? || !confirm)
  {
    if picked.Some? {
      MatchingListed(files, opens, collate, order, picked.value);
    }
  }

  /** The file "Delete" removes, if any: the matching preset's name, once
      the user confirms. */
  function DeleteTarget(collate: (string, string) -> int, presets: seq<Doc>,
                        picked: Option<string>, confirm: bool): Option<string>
  {
    match picked
    case None => None
    case Some(name) =>
      match Matching(collate, presets, name)
      case Some(existing) => if confirm then Some(existing.name) else None
      case None => None
  }

  /** `delete_button_cb`: picks an existing preset and, once the user
      confirms, unlinks its file. */
  method DeletePreset(dir: Directory, collate: (string, string) -> int, order: seq<string>,
                      picked: Option<string>, confirm: bool)
    modifies dir
    ensures dir.opens == old(dir.opens)
    ensures var target := DeleteTarget(collate, Listed(old(dir.files), dir.opens, collate, order), picked, confirm);
            dir.files == if target.Some? then old(dir.files) - {target.value} else old(dir.files)
  {
    var preset, _ := ChoosePreset(dir, collate, order, None, picked);
    if preset.Some? {
      var name := preset.value.name;
      if confirm {
        dir.Unlink(name);
      }
    }
  }

  /** "Delete" removes only a parsed preset whose name collates equal to the
      one picked, and only after confirmation; with the directory readable,
      a confirmed pick that matches a parsed preset always removes one. */
  lemma DeleteTargetSafe(files: map<string, Option<Element>>, opens: bool,
                         collate: (string, string) -> int, order: seq<string>,
                         picked: Option<string>, confirm: bool)
    requires IsCollation(collate) && IsListing(order, files)
    ensures var target := DeleteTarget(collate, Listed(files, opens, collate, order), picked, confirm);
            && (target.Some? ==> confirm && opens && picked.Some? && target.value in files &&
                                 files[target.value].Some? && collate(target.value, picked.value) == 0)
            && (target.None? && picked.Some? && confirm && opens ==>
                  forall file | file in files && files[file].Some? :: collate(file, picked.value) != 0)
  {
    if picked.Some? {
      MatchingListed(files, opens, collate, order, picked.value);
    }
  }

  /** After a preset file is written, listing the directory again shows it
      with the saved tree. */
  lemma SavedIsListed(files: map<string, Option<Element>>, name: string, root: Element,
                      collate: (string, string) -> int, order: seq<string>)
    requires IsCollation(collate) && IsListing(order, files[name := Some(root)])
    ensures Doc(name, Some(root)) in Listed(files[name := Some(root)], true, collate, order)
  {
    ListedPresets(files[name := Some(root)], true, collate, order);
  }

  /** After a preset file is removed, listing the directory again shows no
      preset of that name. */
  lemma DeletedIsNotListed(files: map<string, Option<Element>>, opens: bool, name: string,
                           collate: (string, string) -> int, order: seq<string>)
    requires IsCollation(collate) && IsListing(order, files - {name})
    ensures forall doc | doc in Listed(files - {name}, opens, collate, order) :: doc.name != name
  {
    ListedPresets(files - {name}, opens, collate, order);
  }
}
