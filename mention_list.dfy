/** The controller of the mention dropdown (`MentionList`): its state, the
    fetch lifecycle as explicit start, resolve, fail and teardown events, item
    selection and keyboard handling. */
module MentionListController {
  import opened MentionItems
  import opened FetchResults
  import opened FetchTokens
  import opened MentionNode

  /** What choosing an item does: switch the mode, emit a mention, or throw. */
  datatype Selection = SwitchMode(mode: Mode) | Emit(payload: Payload) | SelectThrew

  /** `handleSelect(item)`. `fileLabel` stands for
      `resolveFileNameForDisplay(convertFromFilepath(path).filepath || '')`;
      nothing catches an exception it throws, nor the one from reading the
      path of a file item without a file item. */
  function Select(item: SourceItem, isSingleMode: bool, fileLabel: string -> Attempt<string>): (r: Selection)
    ensures r.SelectThrew? <==>
      && !(item.isRootCategoryItem && !isSingleMode) && item.category == File
      && (item.fileItem.None? || fileLabel(item.fileItem.value.filepath).Threw?)
    ensures r.SwitchMode? ==> r.mode == ModeOfId(item.id)
    ensures !(item.isRootCategoryItem && !isSingleMode) && item.category == Command ==>
      r == Emit(CommandMention(item.name, item.name))
    ensures !(item.isRootCategoryItem && !isSingleMode) && item.category == Symbol ==>
      r == Emit(ItemMention("symbol", item.fileItem, item.name))
    ensures !(item.isRootCategoryItem && !isSingleMode) && item.category == CategoryHeader ==>
      r == Emit(ItemMention("category", item.fileItem, item.name))
    ensures r.Emit? && item.category == File && item.fileItem.Some? && fileLabel(item.fileItem.value.filepath).Returned? ==>
      r.payload == ItemMention("file", item.fileItem, fileLabel(item.fileItem.value.filepath).value)
  {
    if item.isRootCategoryItem && !isSingleMode then SwitchMode(ModeOfId(item.id))
    else if item.category == Command then Emit(CommandMention(item.name, item.name))
    else if item.category == File then
      if item.fileItem.None? then SelectThrew
      else match fileLabel(item.fileItem.value.filepath)
        case Returned(l) => Emit(ItemMention(Tag(File), item.fileItem, l))
        case Threw => SelectThrew
    else Emit(ItemMention(Tag(item.category), item.fileItem, item.name))
  }

  /** A root item switches the mode and emits nothing while several sources
      exist; every other item leaves the mode alone. */
  lemma SelectSwitchesOnlyOnRootItems(item: SourceItem, isSingleMode: bool, fileLabel: string -> Attempt<string>)
    ensures Select(item, isSingleMode, fileLabel).SwitchMode? <==> item.isRootCategoryItem && !isSingleMode
    ensures !item.isRootCategoryItem && item.category != File ==> Select(item, isSingleMode, fileLabel).Emit?
  {
  }

  /** Choosing a category header of the menu switches to that category's mode. */
  lemma SelectHeaderSwitchesToItsMode(s: Sources, k: nat, fileLabel: string -> Attempt<string>)
    requires !IsSingleMode(s) && k < |Categories(s)|
    ensures Select(Headers(Categories(s))[k], IsSingleMode(s), fileLabel) == SwitchMode(Categories(s)[k])
  {
    HeaderSelectsItsMode(s, k);
  }

  /** The mention a chosen item inserts reads back, as plain text, as the
      placeholder of the item's kind: `[[contextCommand:name]]`,
      `[[symbol:json(fileItem)]]` or `[[file:json(filepath)]]`. */
  lemma SelectedMentionReadsBack(item: SourceItem, isSingleMode: bool, fileLabel: string -> Attempt<string>, json: Json)
    requires Select(item, isSingleMode, fileLabel).Emit?
    ensures var t := RenderText(NodeAttrs(Select(item, isSingleMode, fileLabel).payload), json);
      && (item.category != CategoryHeader ==> t.Returned?)
      && (item.category == Command ==>
            Parse(t.value) == Some(Placeholder("contextCommand", if item.name == "" then "default" else item.name)))
      && (item.category == Symbol ==>
            Parse(t.value) == Some(Placeholder("symbol", json.ofFileItem(item.fileItem))))
      && (item.category == File ==>
            Parse(t.value) == Some(Placeholder("file", json.ofString(item.fileItem.value.filepath))))
  {
    var a := NodeAttrs(Select(item, isSingleMode, fileLabel).payload);
    if RenderText(a, json).Returned? {
      RenderTextReadsBack(a, json);
    }
  }

  function Max(a: int, b: int): int { if a < b then b else a }
  function Min(a: int, b: int): int { if a < b then a else b }

  predicate IsArrow(key: string)
  {
    key == "ArrowUp" || key == "ArrowDown"
  }

  /** The index after an arrow key on a list of `n` items. */
  function ArrowIndex(key: string, i: int, n: nat): (r: int)
    requires IsArrow(key)
    ensures key == "ArrowUp" ==> r == Max(0, i - 1)
    ensures key == "ArrowDown" ==> r == Min(n - 1, i + 1)
    ensures 0 <= i < n ==> 0 <= r < n
  {
    if key == "ArrowUp" then Max(0, i - 1) else Min(n - 1, i + 1)
  }

  /** The index after a run of arrow keys. */
  function PressArrows(keys: seq<string>, i: int, n: nat): int
    requires forall j :: 0 <= j < |keys| ==> IsArrow(keys[j])
    decreases |keys|
  {
    if keys == [] then i else PressArrows(keys[1..], ArrowIndex(keys[0], i, n), n)
  }

  /** No run of arrow keys leaves a non-empty list. */
  lemma {:induction false} ArrowsStayInRange(keys: seq<string>, i: int, n: nat)
    requires forall j :: 0 <= j < |keys| ==> IsArrow(keys[j])
    requires 0 <= i < n
    ensures 0 <= PressArrows(keys, i, n) < n
    decreases |keys|
  {
    if keys != [] {
      ArrowsStayInRange(keys[1..], ArrowIndex(keys[0], i, n), n);
    }
  }

  /** `m` presses of ArrowDown move down `m` rows and stop at the last one. */
  lemma {:induction false} RepeatedArrowDown(m: nat, i: int, n: nat)
    requires 0 <= i < n
    ensures PressArrows(seq(m, _ => "ArrowDown"), i, n) == Min(n - 1, i + m)
    decreases m
  {
    var keys := seq(m, _ => "ArrowDown");
    if m > 0 {
      assert keys[1..] == seq(m - 1, _ => "ArrowDown");
      RepeatedArrowDown(m - 1, Min(n - 1, i + 1), n);
    }
  }

  /** `m` presses of ArrowUp move up `m` rows and stop at the first one. */
  lemma {:induction false} RepeatedArrowUp(m: nat, i: int, n: nat)
    requires 0 <= i < n
    ensures PressArrows(seq(m, _ => "ArrowUp"), i, n) == Max(0, i - m)
    decreases m
  {
    var keys := seq(m, _ => "ArrowUp");
    if m > 0 {
      assert keys[1..] == seq(m - 1, _ => "ArrowUp");
      RepeatedArrowUp(m - 1, Max(0, i - 1), n);
    }
  }

  /** ArrowDown on an empty list selects index -1. */
  lemma ArrowDownOnEmptyList(i: int)
    requires -1 <= i
    ensures ArrowIndex("ArrowDown", i, 0) == -1
  {
  }

  /** A started fetch: what it captured when it started, and whether it has
      settled (resolved or failed). */
  datatype Fetch = Fetch(input: FetchInput, firstShow: bool, settled: bool)

  class MentionList {
    const sources: Sources
    var items: seq<SourceItem>
    var selectedIndex: int
    var mode: Mode
    var isLoading: bool
    var isFirstShow: bool
    /** The `isCurrent` flags of the started fetches, in start order; the last
        one is that of `latestPromiseRef.current`. */
    var tokens: seq<bool>
    var fetches: seq<Fetch>
    var unmounted: bool

    ghost predicate Valid()
      reads this
    {
      && |tokens| == |fetches|
      && OnlyLatestCurrent(tokens)
      && (unmounted ==> NoneCurrent(tokens))
      && (!unmounted && |tokens| > 0 ==> tokens[|tokens| - 1])
      && (IsSingleMode(sources) ==> mode == InitialMode(sources))
      && (forall k :: 0 <= k < |fetches| && !fetches[k].firstShow ==> !isFirstShow)
    }

    /** Mounting the list with the items of the suggestion props. */
    constructor (sources: Sources, propItems: seq<SourceItem>)
      ensures Valid()
      ensures this.sources == sources && items == propItems && selectedIndex == 0
      ensures mode == InitialMode(sources) && !isLoading && isFirstShow
      ensures tokens == [] && fetches == [] && !unmounted
    {
      this.sources := sources;
      items := propItems;
      selectedIndex := 0;
      mode := InitialMode(sources);
      isLoading := false;
      isFirstShow := true;
      tokens := [];
      fetches := [];
      unmounted := false;
    }

    /** `fetchOptions()` up to its first await: loading is set, the previous
        latest fetch is marked stale and the new one becomes the latest,
        capturing the mode, the menu flag and the effective query. */
    method StartFetch(query: string, debouncedQuery: string) returns (token: nat)
      requires Valid() && !unmounted
      modifies this
      ensures Valid()
      ensures token == |old(fetches)|
      ensures tokens == StartToken(old(tokens))
      ensures fetches == old(fetches) + [Fetch(
        FetchInput(sources, ShowCategoryMenu(sources, mode), mode,
                   EffectiveQuery(isFirstShow, query, debouncedQuery)),
        isFirstShow, false)]
      ensures isLoading
      ensures items == old(items) && selectedIndex == old(selectedIndex) && mode == old(mode)
      ensures isFirstShow == old(isFirstShow) && unmounted == old(unmounted)
    {
      isLoading := true;
      var currentQuery := EffectiveQuery(isFirstShow, query, debouncedQuery);
      var input := FetchInput(sources, ShowCategoryMenu(sources, mode), mode, currentQuery);
      tokens := StartToken(tokens);
      fetches := fetches + [Fetch(input, isFirstShow, false)];
      token := |fetches| - 1;
    }

    /** The fetch's workspace call answers: the list is assembled and
        enriched, and committed only if the LATEST fetch is still current
        (the guard as written), whichever fetch this is. */
    method ResolveFetch(token: nat, files: seq<ListFileItem>, symbols: seq<ListSymbolItem>,
                        describe: string -> Attempt<string>)
      requires Valid() && token < |fetches| && !fetches[token].settled
      modifies this
      ensures Valid()
      ensures tokens == old(tokens) && mode == old(mode) && unmounted == old(unmounted)
      ensures fetches == old(fetches)[token := old(fetches[token]).(settled := true)]
      ensures CommitsAsWritten(tokens) ==>
        && items == Enrich(Assemble(old(fetches[token].input), files, symbols), describe)
        && selectedIndex == 0 && !isLoading && !isFirstShow
      ensures !CommitsAsWritten(tokens) ==>
        && items == old(items) && selectedIndex == old(selectedIndex)
        && isLoading == old(isLoading) && isFirstShow == old(isFirstShow)
      ensures old(unmounted) ==> items == old(items) && selectedIndex == old(selectedIndex)
      ensures CommitsAsWritten(tokens) <==> !unmounted
      ensures !old(unmounted) ==> items == Enrich(Assemble(old(fetches[token].input), files, symbols), describe)
    {
      var fetch := fetches[token];
      var results := Assemble(fetch.input, files, symbols);
      var processed := Enrich(results, describe);
      fetches := fetches[token := fetch.(settled := true)];
      if CommitsAsWritten(tokens) {
        items := processed;
        selectedIndex := 0;
        isLoading := false;
        if fetch.firstShow {
          isFirstShow := false;
        }
      }
    }

    /** The fetch's workspace call rejects: the catch branch clears loading.
        Its local `isCurrent` is never cleared, so this happens for a stale
        fetch too. */
    method FailFetch(token: nat)
      requires Valid() && token < |fetches| && !fetches[token].settled
      modifies this
      ensures Valid()
      ensures !isLoading
      ensures fetches == old(fetches)[token := old(fetches[token]).(settled := true)]
      ensures tokens == old(tokens) && items == old(items) && selectedIndex == old(selectedIndex)
      ensures mode == old(mode) && isFirstShow == old(isFirstShow) && unmounted == old(unmounted)
    {
      fetches := fetches[token := fetches[token].(settled := true)];
      isLoading := false;
    }

    /** The cleanup of the mount effect: the latest fetch is marked stale. */
    method Teardown()
      requires Valid()
      modifies this
      ensures Valid()
      ensures tokens == InvalidateLatest(old(tokens)) && NoneCurrent(tokens) && unmounted
      ensures fetches == old(fetches) && items == old(items) && selectedIndex == old(selectedIndex)
      ensures mode == old(mode) && isLoading == old(isLoading) && isFirstShow == old(isFirstShow)
    {
      tokens := InvalidateLatest(tokens);
      unmounted := true;
    }

    /** `handleSelect(item)`, from a click or from Enter. */
    method HandleSelect(item: SourceItem, fileLabel: string -> Attempt<string>) returns (selection: Selection)
      requires Valid()
      modifies this`mode
      ensures Valid()
      ensures selection == Select(item, IsSingleMode(sources), fileLabel)
      ensures mode == if selection.SwitchMode? then selection.mode else old(mode)
    {
      selection := Select(item, IsSingleMode(sources), fileLabel);
      if selection.SwitchMode? {
        mode := selection.mode;
      }
    }

    /** Hovering over the row at `index` selects it. */
    method Hover(index: nat)
      requires Valid() && index < |items|
      modifies this`selectedIndex
      ensures Valid() && selectedIndex == index
    {
      selectedIndex := index;
    }

    /** The back button, shown only in a leaf mode while several sources exist. */
    method GoBack()
      requires Valid() && !IsSingleMode(sources) && mode != CategoryMode
      modifies this`mode
      ensures Valid() && mode == CategoryMode
    {
      mode := CategoryMode;
    }

    /** `onKeyDown`. `handled` is what it returns, or `Threw` when choosing
        the item throws; `emitted` is the payload handed to `command(...)`. */
    method OnKeyDown(key: string, fileLabel: string -> Attempt<string>)
      returns (handled: Attempt<bool>, emitted: Option<Payload>)
      requires Valid()
      modifies this
      ensures Valid()
      ensures items == old(items) && isLoading == old(isLoading) && isFirstShow == old(isFirstShow)
      ensures tokens == old(tokens) && fetches == old(fetches) && unmounted == old(unmounted)
      ensures old(isLoading) || (!IsArrow(key) && key != "Enter") ==>
        && handled == Returned(false) && emitted == None
        && selectedIndex == old(selectedIndex) && mode == old(mode)
      ensures !old(isLoading) && IsArrow(key) ==>
        && handled == Returned(true) && emitted == None
        && selectedIndex == ArrowIndex(key, old(selectedIndex), |items|) && mode == old(mode)
      ensures !old(isLoading) && key == "Enter" && !(0 <= old(selectedIndex) < |items|) ==>
        && handled == Returned(true) && emitted == None
        && selectedIndex == old(selectedIndex) && mode == old(mode)
      ensures !old(isLoading) && key == "Enter" && 0 <= old(selectedIndex) < |items| ==>
        var item := items[old(selectedIndex)];
        var sel := Select(item, IsSingleMode(sources), fileLabel);
        && handled == (if sel == SelectThrew then Threw else Returned(true))
        && emitted == (if sel.Emit? then Some(sel.payload) else None)
        && mode == (if sel.SwitchMode? then sel.mode else old(mode))
        && selectedIndex == (if sel != SelectThrew && item.isRootCategoryItem then 0 else old(selectedIndex))
    {
      emitted := None;
      if isLoading {
        return Returned(false), None;
      }
      var lastIndex := |items| - 1;
      var newIndex := selectedIndex;
      if key == "ArrowUp" {
        newIndex := Max(0, selectedIndex - 1);
      } else if key == "ArrowDown" {
        newIndex := Min(lastIndex, selectedIndex + 1);
      } else if key == "Enter" {
        if 0 <= selectedIndex < |items| {
          var item := items[selectedIndex];
          var selection := HandleSelect(item, fileLabel);
          if selection == SelectThrew {
            return Threw, None;
          }
          if selection.Emit? {
            emitted := Some(selection.payload);
          }
          if item.isRootCategoryItem {
            selectedIndex := 0;
          }
        }
        return Returned(true), emitted;
      } else {
        return Returned(false), None;
      }
      selectedIndex := newIndex;
      handled := Returned(true);
    }
  }

  /** Two fetches started one after the other, the newer resolving first: as
      written, the older one still commits its own list afterwards. */
  method StaleResolveScenario(s: Sources, a: seq<ListFileItem>, b: seq<ListFileItem>,
                              describe: string -> Attempt<string>)
    returns (list: MentionList)
    ensures fresh(list)
    ensures |list.fetches| == |list.tokens| == 2 && !list.tokens[0] && list.tokens[1]
    ensures var older := list.fetches[0].input;
      list.items == Enrich(Assemble(older, a, []), describe)
  {
    list := new MentionList(s, []);
    var first := list.StartFetch("", "");
    var second := list.StartFetch("", "");
    assert first == 0 && second == 1 && !list.unmounted;
    list.ResolveFetch(second, b, [], describe);
    ghost var expected := Enrich(Assemble(list.fetches[0].input, a, []), describe);
    list.ResolveFetch(first, a, [], describe);
    assert list.items == expected;
  }
}
