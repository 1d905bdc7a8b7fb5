/** The mention node of the editor (`PromptFormMentionExtension`): the
    attributes an inserted mention carries, its plain-text placeholder
    (`renderText`) and the HTML attributes it renders (`renderHTML`). */
module MentionNode {
  import opened MentionItems

  /** What the list hands to `command(...)` when an item is chosen. */
  datatype Payload =
    | CommandMention(command: string, text: string)
    | ItemMention(category: string, fileItem: Option<FileItem>, text: string)

  /** The node attributes; `text` is the `label` attribute, and `None` is null. */
  datatype Attrs = Attrs(id: Option<string>, fileItem: Option<FileItem>, category: string,
                         command: Option<string>, text: string)

  /** The attribute defaults of `addAttributes`. */
  const DefaultAttrs := Attrs(None, None, "file", None, "")

  /** The attributes of the node inserted for a payload: what the payload
      gives, and the defaults for the rest. */
  function NodeAttrs(p: Payload): (a: Attrs)
    ensures a.id == DefaultAttrs.id
    ensures a.text == p.text
    ensures p.CommandMention? ==> a.fileItem == DefaultAttrs.fileItem
    ensures p.ItemMention? ==> a.command == DefaultAttrs.command
    ensures p.CommandMention? ==> a.category == "command" && a.command == Some(p.command)
    ensures p.ItemMention? ==> a.category == p.category && a.fileItem == p.fileItem
  {
    match p
    case CommandMention(c, t) => DefaultAttrs.(category := "command", command := Some(c), text := t)
    case ItemMention(cat, f, t) => DefaultAttrs.(category := cat, fileItem := f, text := t)
  }

  /** `JSON.stringify`, left uninterpreted: one encoder for a file item (or
      null) and one for a string. */
  datatype Json = Json(ofFileItem: Option<FileItem> -> string, ofString: string -> string)

  /** The `[[kind:body]]` shape of every placeholder. */
  datatype Placeholder = Placeholder(kind: string, body: string)

  function Show(p: Placeholder): string
  {
    "[[" + p.kind + ":" + p.body + "]]"
  }

  /** The index of the first `c` in `s`, or `|s|`. */
  function IndexOf(s: string, c: char): (i: nat)
    ensures i <= |s|
    ensures i < |s| ==> s[i] == c
    ensures forall j :: 0 <= j < i ==> s[j] != c
  {
    if s == [] then 0 else if s[0] == c then 0 else 1 + IndexOf(s[1..], c)
  }

  /** Reads a placeholder back: the kind runs up to the first colon. */
  function Parse(s: string): Option<Placeholder>
  {
    if |s| < 4 || s[..2] != "[[" || s[|s| - 2..] != "]]" then None
    else
      var inner := s[2..|s| - 2];
      var i := IndexOf(inner, ':');
      if i == |inner| then None else Some(Placeholder(inner[..i], inner[i + 1..]))
  }

  /** Any placeholder whose kind holds no colon reads back as itself. */
  lemma ParseShow(p: Placeholder)
    requires ':' !in p.kind
    ensures Parse(Show(p)) == Some(p)
  {
    var s := Show(p);
    var inner := p.kind + ":" + p.body;
    assert s == "[[" + inner + "]]";
    assert s[..2] == "[[" && s[|s| - 2..] == "]]";
    assert s[2..|s| - 2] == inner;
    assert inner[|p.kind|] == ':';
    assert IndexOf(inner, ':') == |p.kind|;
    assert inner[..|p.kind|] == p.kind && inner[|p.kind| + 1..] == p.body;
  }

  /** A command mention's name: `command || 'default'`. */
  function CommandName(a: Attrs): (n: string)
    ensures n != ""
    ensures a.command.Some? && a.command.value != "" ==> n == a.command.value
    ensures a.command.None? || a.command.value == "" ==> n == "default"
  {
    if a.command.None? || a.command.value == "" then "default" else a.command.value
  }

  /** `renderText`. A category other than command and symbol renders as a
      file, and reading `fileItem.filepath` of a null file item throws. */
  function RenderText(a: Attrs, json: Json): (r: Attempt<string>)
    ensures r.Threw? <==> a.category != "command" && a.category != "symbol" && a.fileItem.None?
  {
    if a.category == "command" then
      Returned(Show(Placeholder("contextCommand", CommandName(a))))
    else if a.category == "symbol" then
      Returned(Show(Placeholder("symbol", json.ofFileItem(a.fileItem))))
    else if a.fileItem.None? then
      Threw
    else
      Returned(Show(Placeholder("file", json.ofString(a.fileItem.value.filepath))))
  }

  /** What a rendered placeholder reads back as, for each category. */
  lemma RenderTextReadsBack(a: Attrs, json: Json)
    requires RenderText(a, json).Returned?
    ensures var p := Parse(RenderText(a, json).value);
      && p.Some?
      && (a.category == "command" ==> p.value == Placeholder("contextCommand", CommandName(a)))
      && (a.category == "symbol" ==> p.value == Placeholder("symbol", json.ofFileItem(a.fileItem)))
      && (a.category != "command" && a.category != "symbol" ==>
            p.value == Placeholder("file", json.ofString(a.fileItem.value.filepath)))
  {
    if a.category == "command" {
      ParseShow(Placeholder("contextCommand", CommandName(a)));
    } else if a.category == "symbol" {
      ParseShow(Placeholder("symbol", json.ofFileItem(a.fileItem)));
    } else {
      ParseShow(Placeholder("file", json.ofString(a.fileItem.value.filepath)));
    }
  }

  /** When the string encoder is injective, two file mentions render the same
      text exactly when they name the same path. */
  lemma FileTextDeterminesPath(a1: Attrs, a2: Attrs, json: Json)
    requires forall x, y :: json.ofString(x) == json.ofString(y) ==> x == y
    requires a1.category == "file" && a2.category == "file"
    requires a1.fileItem.Some? && a2.fileItem.Some?
    ensures RenderText(a1, json) == RenderText(a2, json) <==>
            a1.fileItem.value.filepath == a2.fileItem.value.filepath
  {
    if RenderText(a1, json) == RenderText(a2, json) {
      RenderTextReadsBack(a1, json);
      RenderTextReadsBack(a2, json);
    }
  }

  /** A value of a rendered HTML attribute: text, or the file item object. */
  datatype HtmlValue = Text(s: string) | FileObject(item: FileItem)

  // The `renderHTML` rule of each attribute: nothing when the attribute is
  // falsy (null or the empty string; a file item object is always truthy).

  function IdHtml(a: Attrs, json: Json): map<string, HtmlValue>
  {
    if a.fileItem.None? then map[] else map["data-id" := Text(json.ofString(a.fileItem.value.filepath))]
  }

  function FileItemHtml(a: Attrs): map<string, HtmlValue>
  {
    if a.fileItem.None? then map[] else map["data-file" := FileObject(a.fileItem.value)]
  }

  function CategoryHtml(a: Attrs): map<string, HtmlValue>
  {
    if a.category == "" then map[] else map["data-category" := Text(a.category)]
  }

  function CommandHtml(a: Attrs): map<string, HtmlValue>
  {
    if a.command.None? || a.command.value == "" then map[] else map["data-command" := Text(a.command.value)]
  }

  function LabelHtml(a: Attrs): map<string, HtmlValue>
  {
    if a.text == "" then map[] else map["data-label" := Text(a.text)]
  }

  /** The HTML attributes of a node, merged from the five rules. */
  function RenderHtml(a: Attrs, json: Json): (m: map<string, HtmlValue>)
    ensures m.Keys <= {"data-id", "data-file", "data-category", "data-command", "data-label"}
    ensures "data-id" in m <==> a.fileItem.Some?
    ensures "data-file" in m <==> a.fileItem.Some?
    ensures "data-category" in m <==> a.category != ""
    ensures "data-command" in m <==> a.command.Some? && a.command.value != ""
    ensures "data-label" in m <==> a.text != ""
    ensures "data-id" in m ==> m["data-id"] == Text(json.ofString(a.fileItem.value.filepath))
    ensures "data-file" in m ==> m["data-file"] == FileObject(a.fileItem.value)
    ensures "data-category" in m ==> m["data-category"] == Text(a.category)
    ensures "data-command" in m ==> m["data-command"] == Text(a.command.value)
    ensures "data-label" in m ==> m["data-label"] == Text(a.text)
  {
    IdHtml(a, json) + FileItemHtml(a) + CategoryHtml(a) + CommandHtml(a) + LabelHtml(a)
  }

  /** A node with only default attributes renders just its category. */
  lemma DefaultAttrsRenderCategoryOnly(json: Json)
    ensures RenderHtml(DefaultAttrs, json) == map["data-category" := Text("file")]
  {
    var m := RenderHtml(DefaultAttrs, json);
    assert m.Keys == {"data-category"};
  }

  /** A command mention renders its category, command and label, and neither
      an id nor a file. */
  lemma CommandMentionHtml(name: string, json: Json)
    requires name != ""
    ensures RenderHtml(NodeAttrs(CommandMention(name, name)), json) ==
            map["data-category" := Text("command"), "data-command" := Text(name), "data-label" := Text(name)]
  {
    var m := RenderHtml(NodeAttrs(CommandMention(name, name)), json);
    assert m.Keys == {"data-category", "data-command", "data-label"};
  }
}
