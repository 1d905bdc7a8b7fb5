/** Suggestion items of the mention dropdown, the workspace records they are
    built from, and stand-ins for the adapters that build them. */
module MentionItems {

  datatype Option<+T> = None | Some(value: T)

  /** The outcome of a call into a helper that may throw. */
  datatype Attempt<+T> = Threw | Returned(value: T)

  datatype LineRange = LineRange(start: int, end: int)

  /** The `fileItem` payload carried by file and symbol items and mentions. */
  datatype FileItem = FileItem(filepath: string, range: Option<LineRange>)

  /** The `category` tag of a suggestion item. */
  datatype Category = File | Symbol | Command | CategoryHeader

  /** The string the source stores in `item.category`. */
  function Tag(c: Category): string
  {
    match c
    case File => "file"
    case Symbol => "symbol"
    case Command => "command"
    case CategoryHeader => "category"
  }

  /** The navigation mode of the list (`CategoryMenu` in the source). */
  datatype Mode = CategoryMode | FileMode | SymbolMode

  /** The string the source stores in `mode`. */
  function ModeName(m: Mode): string
  {
    match m
    case CategoryMode => "category"
    case FileMode => "file"
    case SymbolMode => "symbol"
  }

  /** `setMode(item.id as CategoryMenu)` casts the id without checking it.
      The list only ever compares `mode` with 'category' and with 'file', and
      treats every other value as symbol mode, so that is the mode it gets. */
  function ModeOfId(id: string): (m: Mode)
    ensures ModeName(m) == id || (m == SymbolMode && id != "category" && id != "file")
  {
    if id == "category" then CategoryMode
    else if id == "file" then FileMode
    else SymbolMode
  }

  /** One row of the suggestion list (`SourceItem`; its icon is not modelled). */
  datatype SourceItem = SourceItem(
    id: string,
    name: string,
    category: Category,
    isRootCategoryItem: bool,
    fileItem: Option<FileItem>,
    description: Option<string>)

  /** A record returned by `listFileInWorkspace`. */
  datatype ListFileItem = ListFileItem(filepath: string)

  /** A record returned by `listSymbols`; `id` is the identifier the symbol
      adapter gives the item, taken here as part of the record. */
  datatype ListSymbolItem = ListSymbolItem(id: string, name: string, filepath: string, range: LineRange)

  /** Stand-in for `fileItemToSourceItem`. */
  function FileToItem(f: ListFileItem): SourceItem
  {
    SourceItem(f.filepath, f.filepath, File, false, Some(FileItem(f.filepath, None)), None)
  }

  /** Stand-in for `symbolItemToSourceItem`. */
  function SymbolToItem(s: ListSymbolItem): SourceItem
  {
    SourceItem(s.id, s.name, Symbol, false, Some(FileItem(s.filepath, Some(s.range))), None)
  }

  /** Stand-in for `commandItemToSourceItem`. */
  function CommandToItem(name: string): SourceItem
  {
    SourceItem(name, name, Command, false, None, None)
  }

  function MapFiles(fs: seq<ListFileItem>): (r: seq<SourceItem>)
  {
    seq(|fs|, k requires 0 <= k < |fs| => FileToItem(fs[k]))
  }

  function MapSymbols(ss: seq<ListSymbolItem>): (r: seq<SourceItem>)
    ensures forall x :: x in r ==> !x.isRootCategoryItem
  {
    seq(|ss|, k requires 0 <= k < |ss| => SymbolToItem(ss[k]))
  }
}
