/** The multipart bodies the admin dialogs send: an ordered list of named entries, text
    fields first and then one "images" entry per selected file. */
module FormData {
  import opened Wrappers
  import Server

  /** A file chosen in the file input. */
  datatype LocalFile = LocalFile(name: string)

  datatype FormValue = Text(text: string) | File(file: LocalFile)

  /** One `formData.append(key, value)`. */
  datatype FormEntry = FormEntry(key: string, value: FormValue)

  /** One "images" entry per selected file, in selection order. */
  function FileEntries(files: Option<seq<LocalFile>>): (more: seq<FormEntry>)
    ensures files == None ==> more == []
    ensures files.Some? ==> |more| == |files.value|
    ensures forall k :: 0 <= k < |more| ==> more[k] == FormEntry("images", File(files.value[k]))
  {
    match files
    case None => []
    case Some(fs) => seq(|fs|, k requires 0 <= k < |fs| => FormEntry("images", File(fs[k])))
  }

  /** `if (files) Array.from(files).forEach((file) => formData.append("images", file))`:
      `files` is None before any selection; a selection, even an empty one, is truthy. */
  method AppendFiles(entries: seq<FormEntry>, files: Option<seq<LocalFile>>) returns (out: seq<FormEntry>)
    ensures out == entries + FileEntries(files)
  {
    out := entries;
    if files.Some? {
      var fs := files.value;
      for i := 0 to |fs|
        invariant |out| == |entries| + i
        invariant out[..|entries|] == entries
        invariant forall k :: 0 <= k < i ==> out[|entries| + k] == FormEntry("images", File(fs[k]))
      {
        out := out + [FormEntry("images", File(fs[i]))];
      }
    }
    assert out == entries + FileEntries(files);
  }

  /** How the upload middleware stores one text field (its append-field step): a first
      value for a key becomes a string, a second turns the string into the array of both,
      and every later one is pushed onto that array. */
  function AppendField(body: Server.Body, key: string, text: string): Server.Body
  {
    if key in body && body[key].Str? then body[key := Server.Arr([body[key].s, text])]
    else if key in body && body[key].Arr? then body[key := Server.Arr(body[key].items + [text])]
    else body[key := Server.Str(text)]
  }

  /** The body fields the server sees for the text entries, appended one by one; the
      files go to the upload middleware instead. What this gives for each key is stated
      by `TextFieldsCollect` below. */
  function TextFields(entries: seq<FormEntry>): Server.Body
  {
    if entries == [] then map[]
    else
      var rest := TextFields(entries[..|entries| - 1]);
      var last := entries[|entries| - 1];
      if last.value.Text? then AppendField(rest, last.key, last.value.text) else rest
  }

  /** Adding one entry: a text entry is appended to its key's field, a file entry leaves
      the text fields as they were. */
  lemma TextFieldsSnoc(entries: seq<FormEntry>, last: FormEntry)
    ensures TextFields(entries + [last]) ==
      if last.value.Text? then AppendField(TextFields(entries), last.key, last.value.text) else TextFields(entries)
  {
    assert (entries + [last])[..|entries|] == entries;
  }

  /** A text entry whose key was not sent before sets that key to its text. */
  lemma TextFieldsSnocNew(entries: seq<FormEntry>, fields: Server.Body, key: string, text: string)
    requires TextFields(entries) == fields && key !in fields
    ensures TextFields(entries + [FormEntry(key, Text(text))]) == fields[key := Server.Str(text)]
  {
    TextFieldsSnoc(entries, FormEntry(key, Text(text)));
  }

  /** The texts sent under one key, in the order they were appended. */
  function TextsFor(entries: seq<FormEntry>, key: string): (texts: seq<string>)
    ensures |texts| <= |entries|
  {
    if entries == [] then []
    else
      var last := entries[|entries| - 1];
      TextsFor(entries[..|entries| - 1], key) + if last.value.Text? && last.key == key then [last.value.text] else []
  }

  /** The field a non-empty list of texts is stored as: one text alone, several as an array. */
  function Collected(texts: seq<string>): Server.JsValue
    requires texts != []
  {
    if |texts| == 1 then Server.Str(texts[0]) else Server.Arr(texts)
  }

  /** A key is present exactly when some text was sent under it, and its field is that
      text, or the array of all its texts in order when it was sent more than once. */
  lemma {:induction false} TextFieldsCollect(entries: seq<FormEntry>, key: string)
    ensures key in TextFields(entries) <==> TextsFor(entries, key) != []
    ensures key in TextFields(entries) ==> TextFields(entries)[key] == Collected(TextsFor(entries, key))
  {
    if entries != [] {
      var init := entries[..|entries| - 1];
      TextFieldsCollect(init, key);
      var ts := TextsFor(init, key);
      var last := entries[|entries| - 1];
      if last.value.Text? && last.key == key && ts != [] && |ts| == 1 {
        assert ts == [ts[0]];
      }
    }
  }

  /** A key sent twice reaches the server as the array of both texts, not as the second. */
  lemma RepeatedFieldCollects(key: string, first: string, second: string)
    ensures TextFields([FormEntry(key, Text(first)), FormEntry(key, Text(second))])[key] == Server.Arr([first, second])
  {
    var entries := [FormEntry(key, Text(first)), FormEntry(key, Text(second))];
    TextFieldsSnoc([], entries[0]);
    assert [] + [entries[0]] == entries[..1];
    TextFieldsSnoc(entries[..1], entries[1]);
    assert entries[..1] + [entries[1]] == entries;
  }

  /** The files appended after the text entries do not change the text fields. */
  lemma {:induction false} TextFieldsIgnoresFiles(entries: seq<FormEntry>, files: Option<seq<LocalFile>>)
    ensures TextFields(entries + FileEntries(files)) == TextFields(entries)
  {
    FileEntriesIgnored(entries, FileEntries(files));
  }

  lemma {:induction false} FileEntriesIgnored(entries: seq<FormEntry>, more: seq<FormEntry>)
    requires forall k :: 0 <= k < |more| ==> more[k].value.File?
    ensures TextFields(entries + more) == TextFields(entries)
  {
    if more != [] {
      var init := more[..|more| - 1];
      FileEntriesIgnored(entries, init);
      assert entries + more == (entries + init) + [more[|more| - 1]];
      TextFieldsSnoc(entries + init, more[|more| - 1]);
    } else {
      assert entries + more == entries;
    }
  }
}
