/** The preset directory: one file per preset, named after it. A file either
    parses as XML (it then has a root element) or does not. Listing keeps the
    files that parse, sorted by collated name; saving writes a file. */
module PresetDir {
  import opened Wrappers
  import opened Gains
  import opened Presets

  /** The directory presets live in (PRESETS_PATH). */
  const PRESETS_PATH: string := "/home/user/.presets"

  /** A comparison with the laws `g_utf8_collate` obeys for a fixed locale:
      a string collates equal to itself, every pair is ordered one way or the
      other, the order is transitive,
      and "collates equal" is symmetric. */
  ghost predicate IsCollation(collate: (string, string) -> int)
  {
    && (forall a :: collate(a, a) == 0)
    && (forall a, b :: collate(a, b) <= 0 || collate(b, a) <= 0)
    && (forall a, b, c :: collate(a, b) <= 0 && collate(b, c) <= 0 ==> collate(a, c) <= 0)
    && (forall a, b :: collate(a, b) == 0 ==> collate(b, a) == 0)
  }

  /** `sort_xmldoc`: documents compared by name. */
  predicate NameLeq(collate: (string, string) -> int, a: Doc, b: Doc)
  {
    collate(a.name, b.name) <= 0
  }

  predicate SortedByName(collate: (string, string) -> int, docs: seq<Doc>)
  {
    forall i, j | 0 <= i < j < |docs| :: NameLeq(collate, docs[i], docs[j])
  }

  /** `doc` placed before the first element it does not collate after. */
  function Insert(collate: (string, string) -> int, doc: Doc, docs: seq<Doc>): seq<Doc>
  {
    if docs == [] then [doc]
    else if NameLeq(collate, doc, docs[0]) then [doc] + docs
    else [docs[0]] + Insert(collate, doc, docs[1..])
  }

  /** `g_list_sort` with `sort_xmldoc`: a stable sort by collated name. */
  function SortByName(collate: (string, string) -> int, docs: seq<Doc>): seq<Doc>
  {
    if docs == [] then [] else Insert(collate, docs[0], SortByName(collate, docs[1..]))
  }

  /** Inserting adds exactly the one document. */
  lemma {:induction false} InsertPermutes(collate: (string, string) -> int, doc: Doc, docs: seq<Doc>)
    ensures multiset(Insert(collate, doc, docs)) == multiset(docs) + multiset{doc}
  {
    if docs != [] && !NameLeq(collate, doc, docs[0]) {
      InsertPermutes(collate, doc, docs[1..]);
      assert docs == [docs[0]] + docs[1..];
    }
  }

  /** Inserting into a sorted list keeps it sorted. */
  lemma {:induction false} InsertSorted(collate: (string, string) -> int, doc: Doc, docs: seq<Doc>)
    requires IsCollation(collate) && SortedByName(collate, docs)
    ensures SortedByName(collate, Insert(collate, doc, docs))
  {
    if docs == [] {
    } else if NameLeq(collate, doc, docs[0]) {
      forall k | 0 <= k < |docs|
        ensures NameLeq(collate, doc, docs[k])
      {
        assert k == 0 || NameLeq(collate, docs[0], docs[k]);
      }
    } else {
      var tail := docs[1..];
      var rest := Insert(collate, doc, tail);
      InsertSorted(collate, doc, tail);
      InsertPermutes(collate, doc, tail);
      assert NameLeq(collate, docs[0], doc);
      forall k | 0 <= k < |rest|
        ensures NameLeq(collate, docs[0], rest[k])
      {
        assert rest[k] in multiset(rest);
        assert rest[k] == doc || rest[k] in tail;
      }
      assert Insert(collate, doc, docs) == [docs[0]] + rest;
    }
  }

  /** The sorted list is ordered by collated name. */
  lemma {:induction false} SortByNameSorted(collate: (string, string) -> int, docs: seq<Doc>)
    requires IsCollation(collate)
    ensures SortedByName(collate, SortByName(collate, docs))
  {
    if docs != [] {
      SortByNameSorted(collate, docs[1..]);
      InsertSorted(collate, docs[0], SortByName(collate, docs[1..]));
    }
  }

  /** The sorted list holds exactly the documents it was given. */
  lemma {:induction false} SortByNamePermutes(collate: (string, string) -> int, docs: seq<Doc>)
    ensures multiset(SortByName(collate, docs)) == multiset(docs)
  {
    if docs != [] {
      SortByNamePermutes(collate, docs[1..]);
      InsertPermutes(collate, docs[0], SortByName(collate, docs[1..]));
      assert docs == [docs[0]] + docs[1..];
    }
  }

  /** A document as it comes out of the directory: a file that parsed,
      carrying its file name and its tree. */
  ghost predicate IsLoaded(files: map<string, Option<Element>>, doc: Doc)
  {
    doc.name in files && files[doc.name].Some? && doc.root == files[doc.name]
  }

  /** The order in which the directory is read: every file once. */
  ghost predicate IsListing(order: seq<string>, files: map<string, Option<Element>>)
  {
    && (forall i, j | 0 <= i < j < |order| :: order[i] != order[j])
    && (forall name :: name in order <==> name in files)
  }

  /** The list the reading loop builds: the files of `names` that parse,
      each prepended as it is read, so the last one read comes first. */
  function ParsedEntries(files: map<string, Option<Element>>, names: seq<string>): seq<Doc>
  {
    if names == [] then []
    else
      var name := names[|names| - 1];
      var earlier := ParsedEntries(files, names[..|names| - 1]);
      if name in files && files[name].Some? then [Doc(name, files[name])] + earlier else earlier
  }

  /** The reading loop keeps exactly the files read that parse. */
  lemma {:induction false} ParsedEntriesExactly(files: map<string, Option<Element>>, names: seq<string>)
    ensures forall doc :: doc in ParsedEntries(files, names) <==> doc.name in names && IsLoaded(files, doc)
  {
    if names != [] {
      var prefix := names[..|names| - 1];
      ParsedEntriesExactly(files, prefix);
      assert names == prefix + [names[|names| - 1]];
    }
  }

  /** Read in an order that visits every file once, each parsed file is
      kept exactly once. */
  lemma {:induction false} ParsedEntriesOnce(files: map<string, Option<Element>>, names: seq<string>, doc: Doc)
    requires forall i, j | 0 <= i < j < |names| :: names[i] != names[j]
    ensures multiset(ParsedEntries(files, names))[doc] <= 1
  {
    if names != [] {
      var prefix := names[..|names| - 1];
      ParsedEntriesOnce(files, prefix, doc);
      ParsedEntriesExactly(files, prefix);
      if doc.name == names[|names| - 1] {
        assert doc !in ParsedEntries(files, prefix);
      }
    }
  }

  /** The list `presets_preload_all` returns: nothing when the directory
      cannot be opened, otherwise the parsed files in reading order, sorted. */
  function Listed(files: map<string, Option<Element>>, opens: bool,
                  collate: (string, string) -> int, order: seq<string>): seq<Doc>
  {
    if opens then SortByName(collate, ParsedEntries(files, order)) else []
  }

  /** Listing a directory gives every file that parses, once, carrying its
      file name, in collated order; an unreadable directory gives none. */
  lemma ListedPresets(files: map<string, Option<Element>>, opens: bool,
                      collate: (string, string) -> int, order: seq<string>)
    requires IsCollation(collate) && IsListing(order, files)
    ensures var presets := Listed(files, opens, collate, order);
            && SortedByName(collate, presets)
            && (forall doc :: doc in presets <==> opens && IsLoaded(files, doc))
            && (forall doc :: multiset(presets)[doc] <= 1)
  {
    var presets := Listed(files, opens, collate, order);
    if opens {
      var read := ParsedEntries(files, order);
      SortByNameSorted(collate, read);
      SortByNamePermutes(collate, read);
      ParsedEntriesExactly(files, order);
      forall doc
        ensures multiset(presets)[doc] <= 1
      {
        ParsedEntriesOnce(files, order, doc);
      }
      assert forall doc :: doc in presets <==> doc in multiset(presets);
    }
  }

  /** The directory: its files, and whether `g_dir_open` succeeds on it. */
  class Directory {
    var files: map<string, Option<Element>>
    var opens: bool

    constructor (initial: map<string, Option<Element>>, readable: bool)
      ensures files == initial && opens == readable
    {
      files := initial;
      opens := readable;
    }

    /** `presets_preload_all`: reads the directory in `order` (the order
        `g_dir_read_name` yields the files in), prepending every file that
        parses, then sorts the list by collated name. */
    method PreloadAll(collate: (string, string) -> int, order: seq<string>) returns (presets: seq<Doc>)
      ensures presets == Listed(files, opens, collate, order)
    {
      if !opens {
        return [];
      }
      presets := [];
      var i := 0;
      while i < |order|
        invariant 0 <= i <= |order|
        invariant presets == ParsedEntries(files, order[..i])
      {
        var name := order[i];
        assert order[..i + 1][..i] == order[..i];
        if name in files && files[name].Some? {
          presets := [Doc(name, files[name])] + presets;
        }
        i := i + 1;
      }
      assert order[..|order|] == order;
      if presets != [] {
        presets := SortByName(collate, presets);
      }
    }

    /** `preset_save`: fills the document with the tree built from the
        sliders and writes it to the file named after the preset. */
    method PresetSave(preset: Doc, sliders: array<real>) returns (saved: Doc)
      requires sliders.Length == NUM_BANDS
      modifies this
      ensures saved == Doc(preset.name, Some(SavedRoot(sliders[..])))
      ensures files == old(files)[preset.name := saved.root]
      ensures opens == old(opens)
    {
      var children: seq<Node> := [];
      for i := 0 to NUM_BANDS
        invariant |children| == i
        invariant forall k | 0 <= k < i :: children[k] == BandNode(k, sliders[k])
      {
        children := children + [BandNode(i, sliders[i])];
      }
      assert children == SavedRoot(sliders[..]).children;
      saved := Doc(preset.name, Some(Element(ROOT_TAG, children)));
      files := files[preset.name := saved.root];
    }

    /** `g_unlink` of a preset file; removing a missing file changes nothing. */
    method Unlink(name: string)
      modifies this
      ensures files == old(files) - {name}
      ensures opens == old(opens)
    {
      files := files - {name};
    }
  }
}
