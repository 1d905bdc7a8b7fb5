/** What one fetch of the mention list computes: the configured categories,
    the source it asks, the list it assembles from the answers, and the
    description enrichment applied before the list is committed. */
module FetchResults {
  import opened MentionItems
  import opened UniqBy

  /** Which workspace callbacks the list was given (`listFileInWorkspace`,
      `listSymbols`, `getChanges`), and the name of the changes command
      (`createChangesCommand().name`). */
  datatype Sources = Sources(hasFiles: bool, hasSymbols: bool, hasChanges: bool, changesName: string)

  /** The `categories` memo: one entry per configured source, Files first. */
  function Categories(s: Sources): (c: seq<Mode>)
    ensures |c| <= 2
    ensures FileMode in c <==> s.hasFiles
    ensures SymbolMode in c <==> s.hasSymbols
    ensures CategoryMode !in c
    ensures |c| == 2 ==> c[0] == FileMode && c[1] == SymbolMode
  {
    (if s.hasFiles then [FileMode] else []) + (if s.hasSymbols then [SymbolMode] else [])
  }

  predicate IsSingleMode(s: Sources)
  {
    |Categories(s)| == 1
  }

  /** The mode after mounting: with exactly one source, the memo switches the
      mode to that source's kind; otherwise it stays 'category'. */
  function InitialMode(s: Sources): Mode
  {
    if IsSingleMode(s) then Categories(s)[0] else CategoryMode
  }

  predicate ShowCategoryMenu(s: Sources, mode: Mode)
  {
    !IsSingleMode(s) && mode == CategoryMode
  }

  /** Single mode means exactly one of the two list sources is given; with
      none or both, the list opens on the category menu. */
  lemma SingleModeIffOneSource(s: Sources)
    ensures IsSingleMode(s) <==> s.hasFiles != s.hasSymbols
    ensures !IsSingleMode(s) ==> InitialMode(s) == CategoryMode && ShowCategoryMenu(s, InitialMode(s))
  {
  }

  /** A single source fixes the mode and never shows the category menu. */
  lemma SingleSourceFixesMode(s: Sources, mode: Mode)
    requires IsSingleMode(s)
    ensures InitialMode(s) != CategoryMode && InitialMode(s) in Categories(s)
    ensures !ShowCategoryMenu(s, mode)
    ensures s.hasFiles ==> InitialMode(s) == FileMode
    ensures s.hasSymbols ==> InitialMode(s) == SymbolMode
  {
  }

  /** The root-category row of a category. */
  function Header(m: Mode): SourceItem
    requires m != CategoryMode
  {
    SourceItem(ModeName(m), if m == FileMode then "Files" else "Symbols", CategoryHeader, true, None, None)
  }

  function Headers(c: seq<Mode>): (r: seq<SourceItem>)
    requires CategoryMode !in c
  {
    seq(|c|, k requires 0 <= k < |c| => Header(c[k]))
  }

  /** Selecting a header switches to the mode of the category it stands for. */
  lemma HeaderSelectsItsMode(s: Sources, k: nat)
    requires k < |Categories(s)|
    ensures Headers(Categories(s))[k].isRootCategoryItem
    ensures ModeOfId(Headers(Categories(s))[k].id) == Categories(s)[k]
  {
  }

  function ChangesItem(s: Sources): SourceItem
  {
    CommandToItem(s.changesName)
  }

  /** The query a fetch uses: the raw query on first show, else the debounced one. */
  function EffectiveQuery(isFirstShow: bool, query: string, debouncedQuery: string): (q: string)
    ensures isFirstShow ==> q == query
    ensures !isFirstShow ==> q == debouncedQuery
  {
    if isFirstShow then query else debouncedQuery
  }

  /** `toLowerCase`, on ASCII letters. */
  function LowerChar(c: char): char
  {
    if 'A' <= c <= 'Z' then ((c as int) + 32) as char else c
  }

  function ToLower(s: string): (r: string)
    ensures |r| == |s|
  {
    seq(|s|, k requires 0 <= k < |s| => LowerChar(s[k]))
  }

  lemma ToLowerIdempotent(s: string)
    ensures ToLower(ToLower(s)) == ToLower(s)
  {
    forall k | 0 <= k < |s| ensures ToLower(ToLower(s))[k] == ToLower(s)[k] {
      assert LowerChar(LowerChar(s[k])) == LowerChar(s[k]);
    }
  }

  /** `getChanges && name.toLowerCase().startsWith(query.toLowerCase())`. */
  predicate CommandMatches(s: Sources, query: string)
  {
    s.hasChanges && ToLower(query) <= ToLower(s.changesName)
  }

  /** The match ignores the case of the query. */
  lemma CommandMatchIgnoresCase(s: Sources, query: string)
    ensures CommandMatches(s, query) <==> CommandMatches(s, ToLower(query))
  {
    ToLowerIdempotent(query);
  }

  /** An empty query matches the changes command whenever it is configured,
      and so does its own name in any case. */
  lemma CommandMatchesEmptyAndOwnName(s: Sources)
    ensures CommandMatches(s, "") <==> s.hasChanges
    ensures CommandMatches(s, s.changesName) <==> s.hasChanges
    ensures CommandMatches(s, ToLower(s.changesName)) <==> s.hasChanges
  {
    ToLowerIdempotent(s.changesName);
  }

  /** What a fetch captures when it starts. */
  datatype FetchInput = FetchInput(sources: Sources, showCategoryMenu: bool, mode: Mode, query: string)

  /** The workspace call a fetch makes; `NoRequest` when the callback is absent. */
  datatype Request = ListFiles(query: string) | ListSymbols(query: string) | NoRequest

  function RequestOf(v: FetchInput): (r: Request)
    ensures r.ListFiles? <==> v.sources.hasFiles && (v.showCategoryMenu || v.mode == FileMode)
    ensures r.ListSymbols? <==> v.sources.hasSymbols && !v.showCategoryMenu && v.mode != FileMode
    ensures r != NoRequest ==> r.query == v.query
  {
    if v.showCategoryMenu || v.mode == FileMode then
      if v.sources.hasFiles then ListFiles(v.query) else NoRequest
    else if v.sources.hasSymbols then ListSymbols(v.query) else NoRequest
  }

  /** The result of a callback that may be absent: `(await cb?.(...)) || []`. */
  function Answer<T>(present: bool, answer: seq<T>): seq<T>
  {
    if present then answer else []
  }

  /** The root-category items of `r` are exactly its first `|Categories|`
      entries in the category menu with an empty query, and none otherwise. */
  predicate RootItemsAreHeaders(v: FetchInput, r: seq<SourceItem>)
  {
    forall k :: 0 <= k < |r| ==>
      (r[k].isRootCategoryItem <==> v.showCategoryMenu && v.query == "" && k < |Categories(v.sources)|)
  }

  /** The list built by `currentPromise` from the answers of the workspace
      calls. The root-category items are exactly the headers, which lead the
      list and appear only in the category menu with an empty query. */
  function Assemble(v: FetchInput, files: seq<ListFileItem>, symbols: seq<ListSymbolItem>): (r: seq<SourceItem>)
    ensures RootItemsAreHeaders(v, r)
  {
    var s := v.sources;
    var fileItems := MapFiles(Answer(s.hasFiles, files));
    if v.showCategoryMenu then
      if v.query != "" then
        (if CommandMatches(s, v.query) then [ChangesItem(s)] else []) + fileItems
      else
        Headers(Categories(s)) + (if s.hasChanges then [ChangesItem(s)] else []) + fileItems
    else if v.mode == FileMode then fileItems
    else UniqById(MapSymbols(Answer(s.hasSymbols, symbols)))
  }

  /** A fetch's list depends only on the answer of the call `RequestOf`
      names: the answer of the other source is never read. */
  lemma AssembleReadsOnlyRequested(v: FetchInput, files: seq<ListFileItem>, symbols: seq<ListSymbolItem>,
                                   files': seq<ListFileItem>, symbols': seq<ListSymbolItem>)
    ensures !RequestOf(v).ListFiles? ==> Assemble(v, files, symbols) == Assemble(v, files', symbols)
    ensures !RequestOf(v).ListSymbols? ==> Assemble(v, files, symbols) == Assemble(v, files, symbols')
  {
  }

  /** Category menu, empty query: one header per configured source in the
      order of `Categories`, then the changes command when `getChanges` is
      given, then every file answer in order; only the headers are root items. */
  lemma CategoryMenuEmptyQuery(v: FetchInput, files: seq<ListFileItem>, symbols: seq<ListSymbolItem>)
    requires v.showCategoryMenu && v.query == ""
    ensures var r := Assemble(v, files, symbols);
      var c := Categories(v.sources);
      var fs := Answer(v.sources.hasFiles, files);
      && |r| == |c| + (if v.sources.hasChanges then 1 else 0) + |fs|
      && (forall k :: 0 <= k < |c| ==> r[k] == Header(c[k]))
      && (v.sources.hasChanges ==> r[|c|] == ChangesItem(v.sources))
      && (forall k :: 0 <= k < |fs| ==> r[|r| - |fs| + k] == FileToItem(fs[k]))
      && (forall k :: 0 <= k < |r| ==> (r[k].isRootCategoryItem <==> k < |c|))
  {
  }

  /** Category menu, non-empty query: no headers; the changes command is
      present, and first, exactly when it matches the query; the rest are the
      file answers in order. */
  lemma CategoryMenuWithQuery(v: FetchInput, files: seq<ListFileItem>, symbols: seq<ListSymbolItem>)
    requires v.showCategoryMenu && v.query != ""
    ensures var r := Assemble(v, files, symbols);
      var fileItems := MapFiles(Answer(v.sources.hasFiles, files));
      && (forall k :: 0 <= k < |r| ==> !r[k].isRootCategoryItem)
      && (ChangesItem(v.sources) in r <==> CommandMatches(v.sources, v.query))
      && (CommandMatches(v.sources, v.query) ==> r[0] == ChangesItem(v.sources) && r[1..] == fileItems)
      && (!CommandMatches(v.sources, v.query) ==> r == fileItems)
  {
  }

  /** File or symbol mode: the file answers as they are, or the symbol
      answers with one item per id, each the first of its id, in order. */
  lemma SpecificModeResults(v: FetchInput, files: seq<ListFileItem>, symbols: seq<ListSymbolItem>)
    requires !v.showCategoryMenu
    ensures var r := Assemble(v, files, symbols);
      var symbolItems := MapSymbols(Answer(v.sources.hasSymbols, symbols));
      && (forall k :: 0 <= k < |r| ==> !r[k].isRootCategoryItem)
      && (v.mode == FileMode ==> r == MapFiles(Answer(v.sources.hasFiles, files)))
      && (v.mode != FileMode ==>
            && IsSubsequence(r, symbolItems)
            && DistinctIds(r)
            && Ids(r) == Ids(symbolItems)
            && (forall k :: 0 <= k < |r| ==> FirstWithId(symbolItems, r[k].id) == Some(r[k])))
  {
  }

  /** With a single source no fetch ever lists a root-category item. */
  lemma SingleSourceListsNoHeaders(mode: Mode, v: FetchInput, files: seq<ListFileItem>, symbols: seq<ListSymbolItem>)
    requires IsSingleMode(v.sources) && v.showCategoryMenu == ShowCategoryMenu(v.sources, mode)
    ensures forall x :: x in Assemble(v, files, symbols) ==> !x.isRootCategoryItem
  {
    SpecificModeResults(v, files, symbols);
  }

  /** The item is a file item whose path the describer accepts. */
  predicate Describable(item: SourceItem, describe: string -> Attempt<string>)
  {
    item.category == File && item.fileItem.Some? && describe(item.fileItem.value.filepath).Returned?
  }

  /** `r` is `item` with, at most, a new description: the describer's answer
      for a describable item, and nothing changed for any other. */
  predicate DescribedAs(item: SourceItem, r: SourceItem, describe: string -> Attempt<string>)
  {
    && r.(description := item.description) == item
    && (Describable(item, describe) ==> r.description == Some(describe(item.fileItem.value.filepath).value))
    && (!Describable(item, describe) ==> r == item)
  }

  /** One item after description enrichment: a file item whose path the
      describer accepts gets its description; every other item is kept. */
  function Describe(item: SourceItem, describe: string -> Attempt<string>): (r: SourceItem)
    ensures DescribedAs(item, r, describe)
  {
    if item.category == File && item.fileItem.Some? then
      match describe(item.fileItem.value.filepath)
      case Returned(d) => item.(description := Some(d))
      case Threw => item
    else item
  }

  /** The `results.map(...)` step: `describe` stands for
      `formatFileDescription(convertFromFilepath(path))`, `Threw` for an
      exception the step swallows. */
  function Enrich(items: seq<SourceItem>, describe: string -> Attempt<string>): (r: seq<SourceItem>)
    ensures |r| == |items|
    ensures forall k :: 0 <= k < |r| ==> r[k].(description := items[k].description) == items[k]
    ensures forall k :: 0 <= k < |r| && Describable(items[k], describe) ==>
      r[k].description == Some(describe(items[k].fileItem.value.filepath).value)
    ensures forall k :: 0 <= k < |r| && !Describable(items[k], describe) ==> r[k] == items[k]
  {
    seq(|items|, k requires 0 <= k < |items| => Describe(items[k], describe))
  }
}
