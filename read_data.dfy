/** The read record shown in a data tab (transform_data, prepare_tab_data
    and populate_tree_model in pod5Viewer.py): the record is a dict of
    fields, transform_data turns it into JSON-ready values, and the tab's
    tree shows one row per key with a tooltip taken from the help strings. */
module ReadData {
  import opened Util
  import opened Text

  /** A field value of a read record. */
  datatype Value =
    | Array(items: seq<real>)      // a one-dimensional numpy array
    | Uuid(text: string)           // a uuid.UUID, by its canonical str()
    | Date(iso: string)            // a date or datetime, by its isoformat()
    | Dict(entries: seq<Entry>)    // a dict, in insertion order
    | List(items: seq<real>)       // a list, as ndarray.tolist() gives
    | Str(s: string)
    | Scalar(text: string)         // any other value (number, bool, enum), by its str()

  datatype Entry = Entry(key: string, value: Value)

  /** The number of array values transform_data keeps when shortening. */
  const ShortenLimit: nat := 100

  /** str() of each value. */
  function Shows(xs: seq<real>, show: real -> string): (r: seq<string>)
    ensures |r| == |xs| && forall i :: 0 <= i < |xs| ==> r[i] == show(xs[i])
  {
    if |xs| == 0 then [] else [show(xs[0])] + Shows(xs[1..], show)
  }

  /** ",".join(str(x) for x in value[:100]) + "..." */
  function ShortText(xs: seq<real>, show: real -> string): string
    requires |xs| > ShortenLimit
  {
    Join(Shows(xs[..ShortenLimit], show), ",") + "..."
  }

  /** The conversion transform_data applies to one value. */
  function TransformValue(v: Value, shorten: bool, show: real -> string): Value
    decreases v
  {
    match v
    case Array(xs) => if shorten && |xs| > ShortenLimit then Str(ShortText(xs, show)) else List(xs)
    case Uuid(t) => Str(t)
    case Date(iso) => Str(iso)
    case Dict(es) => Dict(Transform(es, false, show))
    case _ => v
  }

  /** transform_data(data, shorten): a fresh dict with the same keys in the
      same order, each value converted; nested dicts are converted without
      shortening. */
  function Transform(es: seq<Entry>, shorten: bool, show: real -> string): (r: seq<Entry>)
    ensures |r| == |es|
    ensures forall i :: 0 <= i < |es| ==> r[i].key == es[i].key
    ensures forall i :: 0 <= i < |es| ==> r[i].value == TransformValue(es[i].value, shorten, show)
    decreases es
  {
    if |es| == 0 then []
    else [Entry(es[0].key, TransformValue(es[0].value, shorten, show))] + Transform(es[1..], shorten, show)
  }

  /** A value JSON can hold: no array, UUID or date at any depth. */
  predicate JsonReady(v: Value)
    decreases v
  {
    match v
    case Array(_) => false
    case Uuid(_) => false
    case Date(_) => false
    case Dict(es) => AllJsonReady(es)
    case _ => true
  }

  predicate AllJsonReady(es: seq<Entry>)
    decreases es
  {
    |es| == 0 || (JsonReady(es[0].value) && AllJsonReady(es[1..]))
  }

  /** transform_data leaves nothing JSON cannot hold, at any depth. */
  lemma {:induction false} TransformIsJsonReady(es: seq<Entry>, shorten: bool, show: real -> string)
    ensures AllJsonReady(Transform(es, shorten, show))
    decreases es
  {
    if |es| > 0 {
      ValueIsJsonReady(es[0].value, shorten, show);
      TransformIsJsonReady(es[1..], shorten, show);
      var r := Transform(es, shorten, show);
      assert r[1..] == Transform(es[1..], shorten, show);
    }
  }

  lemma {:induction false} ValueIsJsonReady(v: Value, shorten: bool, show: real -> string)
    ensures JsonReady(TransformValue(v, shorten, show))
    decreases v
  {
    if v.Dict? {
      TransformIsJsonReady(v.entries, false, show);
    }
  }

  /** transform_data changes nothing in a JSON-ready dict, so converting
      its result again (for display, then for export) gives the same
      dict. */
  lemma {:induction false} TransformFixesJsonReady(es: seq<Entry>, shorten: bool, show: real -> string)
    requires AllJsonReady(es)
    ensures Transform(es, shorten, show) == es
    decreases es
  {
    if |es| > 0 {
      ValueFixed(es[0].value, shorten, show);
      TransformFixesJsonReady(es[1..], shorten, show);
    }
  }

  lemma {:induction false} ValueFixed(v: Value, shorten: bool, show: real -> string)
    requires JsonReady(v)
    ensures TransformValue(v, shorten, show) == v
    decreases v
  {
    if v.Dict? {
      TransformFixesJsonReady(v.entries, false, show);
    }
  }

  /** Converting twice is converting once. */
  lemma TransformIdempotent(es: seq<Entry>, shorten: bool, again: bool, show: real -> string)
    ensures Transform(Transform(es, shorten, show), again, show) == Transform(es, shorten, show)
  {
    TransformIsJsonReady(es, shorten, show);
    TransformFixesJsonReady(Transform(es, shorten, show), again, show);
  }

  /** A top-level array longer than 100 values becomes, when shortening,
      the text of its first 100 values joined by commas with "..." after
      them; every other array becomes a list of all its values. */
  lemma ArrayConversion(es: seq<Entry>, shorten: bool, show: real -> string, i: nat)
    requires i < |es| && es[i].value.Array?
    ensures var xs := es[i].value.items;
      var r := Transform(es, shorten, show)[i].value;
      && (shorten && |xs| > ShortenLimit ==>
            r.Str? && r.s == Join(Shows(xs[..ShortenLimit], show), ",") + "..."
            && |Shows(xs[..ShortenLimit], show)| == 100
            && r.s[|r.s| - 3..] == "...")
      && (!shorten || |xs| <= ShortenLimit ==> r == List(xs))
  {
  }

  /** Arrays inside a nested dict are never shortened, however long. */
  lemma NestedArraysKept(es: seq<Entry>, shorten: bool, show: real -> string, i: nat, j: nat)
    requires i < |es| && es[i].value.Dict?
    requires j < |es[i].value.entries| && es[i].value.entries[j].value.Array?
    ensures Transform(es, shorten, show)[i].value.Dict?
    ensures Transform(es, shorten, show)[i].value.entries[j].value == List(es[i].value.entries[j].value.items)
  {
  }

  /** Identifiers and dates become their text. */
  lemma TextValues(es: seq<Entry>, shorten: bool, show: real -> string, i: nat)
    requires i < |es|
    ensures es[i].value.Uuid? ==> Transform(es, shorten, show)[i].value == Str(es[i].value.text)
    ensures es[i].value.Date? ==> Transform(es, shorten, show)[i].value == Str(es[i].value.iso)
  {
  }

  /** The tooltip a key gets when its help string is missing or empty. */
  const NoDocstring: string := "No docstring available"

  /** str.isdigit() for ASCII digits: non-empty and digits only. */
  predicate IsDigitKey(k: string)
  {
    |k| > 0 && forall i :: 0 <= i < |k| ==> IsDigit(k[i])
  }

  /** The help string of a key path: the entry for the space-joined path,
      or the fallback text when that entry is missing or empty. */
  function Tooltip(help: map<string, string>, path: seq<string>): (t: string)
    ensures Join(path, " ") in help && help[Join(path, " ")] != "" ==> t == help[Join(path, " ")]
    ensures Join(path, " ") !in help || help[Join(path, " ")] == "" ==> t == NoDocstring
  {
    var key := Join(path, " ");
    if key in help && help[key] != "" then help[key] else NoDocstring
  }

  /** The key path passed to the children of a dict under key: a key made
      of digits only (one entry of signal_rows, say) is left out so that
      its children share the help strings of the list's entries. */
  function ChildKeys(parentKeys: seq<string>, key: string): (r: seq<string>)
    ensures IsDigitKey(key) ==> r == parentKeys
    ensures !IsDigitKey(key) ==> r == parentKeys + [key]
  {
    if IsDigitKey(key) then parentKeys else parentKeys + [key]
  }

  /** One row of a data tab's tree: the key, the key path its help string
      is looked up under, the tooltip, and either the child rows of a dict
      or the value of a leaf (shown as str() of it). */
  datatype Item = Item(key: string, path: seq<string>, tooltip: string, value: Option<Value>, children: seq<Item>)

  /** populate_tree_model(parent, data, parent_keys): the rows appended
      under parent. */
  function Populate(help: map<string, string>, es: seq<Entry>, parentKeys: seq<string>): (items: seq<Item>)
    ensures |items| == |es|
    decreases es
  {
    if |es| == 0 then []
    else [Row(help, es[0], parentKeys)] + Populate(help, es[1..], parentKeys)
  }

  function Row(help: map<string, string>, e: Entry, parentKeys: seq<string>): Item
    decreases e
  {
    var path := parentKeys + [e.key];
    if e.value.Dict? then
      Item(e.key, path, Tooltip(help, path), None, Populate(help, e.value.entries, ChildKeys(parentKeys, e.key)))
    else
      Item(e.key, path, Tooltip(help, path), Some(e.value), [])
  }

  /** Every row, at every depth, is keyed by its entry's key, looked up
      under a path that ends in that key and holds no digit-only key
      before it, and carries that path's tooltip. */
  ghost predicate WellLabelled(help: map<string, string>, items: seq<Item>)
    decreases items
  {
    forall i :: 0 <= i < |items| ==> ItemLabelled(help, items[i])
  }

  ghost predicate ItemLabelled(help: map<string, string>, item: Item)
    decreases item
  {
    && |item.path| >= 1
    && item.path[|item.path| - 1] == item.key
    && NoDigitKeys(item.path[..|item.path| - 1])
    && item.tooltip == Tooltip(help, item.path)
    && WellLabelled(help, item.children)
  }

  predicate NoDigitKeys(keys: seq<string>)
  {
    forall k :: 0 <= k < |keys| ==> !IsDigitKey(keys[k])
  }

  /** Starting from a path without digit-only keys, as prepare_tab_data
      does with the empty path, every row of the tree is well labelled:
      digit-only keys never reach a help path except as its own last key. */
  lemma {:induction false} PopulateWellLabelled(help: map<string, string>, es: seq<Entry>, parentKeys: seq<string>)
    requires NoDigitKeys(parentKeys)
    ensures WellLabelled(help, Populate(help, es, parentKeys))
    decreases es
  {
    if |es| > 0 {
      RowWellLabelled(help, es[0], parentKeys);
      PopulateWellLabelled(help, es[1..], parentKeys);
      var items := Populate(help, es, parentKeys);
      forall i | 0 <= i < |items|
        ensures ItemLabelled(help, items[i])
      {
        if i > 0 {
          assert items[i] == Populate(help, es[1..], parentKeys)[i - 1];
        }
      }
    }
  }

  lemma {:induction false} RowWellLabelled(help: map<string, string>, e: Entry, parentKeys: seq<string>)
    requires NoDigitKeys(parentKeys)
    ensures ItemLabelled(help, Row(help, e, parentKeys))
    decreases e
  {
    var path := parentKeys + [e.key];
    assert path[..|path| - 1] == parentKeys;
    if e.value.Dict? {
      PopulateWellLabelled(help, e.value.entries, ChildKeys(parentKeys, e.key));
    }
  }

  /** The children of a digit-only key are looked up under the same path
      as the entries beside that key. */
  lemma DigitKeyIsTransparent(help: map<string, string>, e: Entry, parentKeys: seq<string>)
    requires IsDigitKey(e.key) && e.value.Dict?
    ensures Row(help, e, parentKeys).children == Populate(help, e.value.entries, parentKeys)
  {
  }
}
