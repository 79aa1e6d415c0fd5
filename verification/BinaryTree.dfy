/** Session bundles as JSON values: byte strings are written as objects with the single
    key "$binary". Encoding refuses what decoding could not give back, and normalises
    the rest, so that a stored bundle and its encoding determine each other.
  */
module BinaryTree {
  import opened Options
  import Base64

  const MAX_DEPTH: nat := 32
  const BINARY := "$binary"

  datatype Key = Text(text: string) | OtherKey(id: int)

  /** A dictionary keeps the order of its keys. `Other` stands for a float that is not
      finite, or a value of any other type.
    */
  datatype Tree =
    | Null
    | Bool(bool)
    | Int(int)
    | Float(real)
    | Str(string)
    | Bytes(seq<Base64.Byte>)
    | List(items: seq<Tree>)
    | Tuple(items: seq<Tree>)
    | Dict(entries: seq<Entry>)
    | Other(id: int)

  datatype Entry = Entry(key: Key, value: Tree)

  predicate HasTextKeys(entries: seq<Entry>)
  {
    forall i :: 0 <= i < |entries| ==> entries[i].key.Text?
  }

  predicate HasBinary(entries: seq<Entry>)
  {
    exists i :: 0 <= i < |entries| && entries[i].key == Text(BINARY)
  }

  /** `_binary_tree` with encode=True. */
  function Encode(t: Tree, depth: nat): Option<Tree>
    decreases t, 0
  {
    if depth > MAX_DEPTH then None
    else
      match t
      case Bytes(bytes) => Some(Dict([Entry(Text(BINARY), Str(Base64.Encode(bytes)))]))
      case Dict(entries) =>
        if !HasTextKeys(entries) || HasBinary(entries) then None
        else
          var r := EncodeEntries(entries, depth + 1);
          if r == None then None else Some(Dict(r.value))
      case List(items) =>
        var r := EncodeItems(items, depth + 1);
        if r == None then None else Some(List(r.value))
      case Tuple(items) =>
        var r := EncodeItems(items, depth + 1);
        if r == None then None else Some(List(r.value))
      case Other(_) => None
      case _ => Some(t)
  }

  function EncodeItems(items: seq<Tree>, depth: nat): (r: Option<seq<Tree>>)
    decreases items
  {
    if items == [] then Some([])
    else
      var first := Encode(items[0], depth);
      var rest := EncodeItems(items[1..], depth);
      if first == None || rest == None then None else Some([first.value] + rest.value)
  }

  function EncodeEntries(entries: seq<Entry>, depth: nat): (r: Option<seq<Entry>>)
    decreases entries
  {
    if entries == [] then Some([])
    else
      assert (entries[0] decreases to entries[0].value);
      var Entry(key, value) := entries[0];
      var first := Encode(value, depth);
      var rest := EncodeEntries(entries[1..], depth);
      if first == None || rest == None then None else Some([Entry(key, first.value)] + rest.value)
  }

  /** `_binary_tree` with encode=False. */
  function Decode(t: Tree, depth: nat): Option<Tree>
    decreases t, 0
  {
    if depth > MAX_DEPTH then None
    else
      match t
      case Bytes(_) => None
      case Dict(entries) =>
        if !HasTextKeys(entries) then None
        else if HasBinary(entries) then
          if |entries| != 1 || !entries[0].value.Str? then None
          else
            var bytes := Base64.Decode(StringOf(entries[0].value));
            if bytes == None then None else Some(Bytes(bytes.value))
        else
          var r := DecodeEntries(entries, depth + 1);
          if r == None then None else Some(Dict(r.value))
      case List(items) =>
        var r := DecodeItems(items, depth + 1);
        if r == None then None else Some(List(r.value))
      case Tuple(items) =>
        var r := DecodeItems(items, depth + 1);
        if r == None then None else Some(List(r.value))
      case Other(_) => None
      case _ => Some(t)
  }

  function StringOf(t: Tree): string
    requires t.Str?
  {
    match t
    case Str(s) => s
  }

  function DecodeItems(items: seq<Tree>, depth: nat): (r: Option<seq<Tree>>)
    decreases items
  {
    if items == [] then Some([])
    else
      var first := Decode(items[0], depth);
      var rest := DecodeItems(items[1..], depth);
      if first == None || rest == None then None else Some([first.value] + rest.value)
  }

  function DecodeEntries(entries: seq<Entry>, depth: nat): (r: Option<seq<Entry>>)
    decreases entries
  {
    if entries == [] then Some([])
    else
      assert (entries[0] decreases to entries[0].value);
      var Entry(key, value) := entries[0];
      var first := Decode(value, depth);
      var rest := DecodeEntries(entries[1..], depth);
      if first == None || rest == None then None else Some([Entry(key, first.value)] + rest.value)
  }

  // ----- What is written -----

  /** The same value, with byte strings as Base64 under the one key `$binary` and tuples as lists. */
  ghost predicate Matches(t: Tree, written: Tree)
    decreases t
  {
    match t
    case Bytes(bytes) => written == Dict([Entry(Text("$binary"), Str(Base64.Encode(bytes)))])
    case Dict(entries) =>
      && written.Dict? && |written.entries| == |entries|
      && forall i :: 0 <= i < |entries| ==>
           && written.entries[i].key == entries[i].key
           && assert (entries[i] decreases to entries[i].value); Matches(entries[i].value, written.entries[i].value)
    case List(items) => written.List? && |written.items| == |items|
                        && forall i :: 0 <= i < |items| ==> Matches(items[i], written.items[i])
    case Tuple(items) => written.List? && |written.items| == |items|
                         && forall i :: 0 <= i < |items| ==> Matches(items[i], written.items[i])
    case _ => written == t
  }

  /** Whatever is encoded is written so. */
  lemma {:induction false} EncodedMatches(t: Tree, depth: nat)
    requires Encode(t, depth).Some?
    ensures Matches(t, Encode(t, depth).value)
    decreases t, 0
  {
    match t
    case Dict(entries) => EntriesMatch(entries, depth + 1);
    case List(items) => ItemsMatch(items, depth + 1);
    case Tuple(items) => ItemsMatch(items, depth + 1);
    case _ =>
  }

  lemma {:induction false} ItemsMatch(items: seq<Tree>, depth: nat)
    requires EncodeItems(items, depth).Some?
    ensures var r := EncodeItems(items, depth).value;
      |r| == |items| && forall i :: 0 <= i < |items| ==> Matches(items[i], r[i])
    decreases items
  {
    if items != [] {
      EncodedMatches(items[0], depth);
      ItemsMatch(items[1..], depth);
      assert forall i :: 0 < i < |items| ==> items[i] == items[1..][i - 1];
    }
  }

  lemma {:induction false} EntriesMatch(entries: seq<Entry>, depth: nat)
    requires EncodeEntries(entries, depth).Some?
    ensures var r := EncodeEntries(entries, depth).value;
      |r| == |entries|
      && forall i :: 0 <= i < |entries| ==> r[i].key == entries[i].key && Matches(entries[i].value, r[i].value)
    decreases entries
  {
    if entries != [] {
      assert (entries[0] decreases to entries[0].value);
      EncodedMatches(entries[0].value, depth);
      EntriesMatch(entries[1..], depth);
      assert forall i :: 0 < i < |entries| ==> entries[i] == entries[1..][i - 1];
    }
  }

  // ----- What is accepted -----

  /** The value with tuples as lists. */
  function Normal(t: Tree): Tree
    decreases t, 0
  {
    match t
    case Dict(entries) => Dict(NormalEntries(entries))
    case List(items) => List(NormalItems(items))
    case Tuple(items) => List(NormalItems(items))
    case _ => t
  }

  function NormalItems(items: seq<Tree>): (r: seq<Tree>)
    decreases items
  {
    if items == [] then [] else [Normal(items[0])] + NormalItems(items[1..])
  }

  function NormalEntries(entries: seq<Entry>): (r: seq<Entry>)
    decreases entries
  {
    if entries == [] then []
    else
      assert (entries[0] decreases to entries[0].value);
      var Entry(key, value) := entries[0];
      [Entry(key, Normal(value))] + NormalEntries(entries[1..])
  }

  /** Containers within containers: 0 for a value that is none. */
  function Levels(t: Tree): nat
    decreases t, 0
  {
    match t
    case Dict(entries) => EntryLevels(entries)
    case List(items) => ItemLevels(items)
    case Tuple(items) => ItemLevels(items)
    case _ => 0
  }

  function Max(a: nat, b: nat): nat
  {
    if a >= b then a else b
  }

  function ItemLevels(items: seq<Tree>): nat
    decreases items
  {
    if items == [] then 0 else Max(1 + Levels(items[0]), ItemLevels(items[1..]))
  }

  function EntryLevels(entries: seq<Entry>): nat
    decreases entries
  {
    if entries == [] then 0
    else
      assert (entries[0] decreases to entries[0].value);
      var Entry(_, value) := entries[0];
      Max(1 + Levels(value), EntryLevels(entries[1..]))
  }

  /** Only values that JSON can carry, and no key that would be taken for a byte string. */
  predicate Plain(t: Tree)
    decreases t, 0
  {
    match t
    case Dict(entries) =>
      && (forall i :: 0 <= i < |entries| ==> entries[i].key.Text? && entries[i].key.text != "$binary")
      && PlainEntries(entries)
    case List(items) => PlainItems(items)
    case Tuple(items) => PlainItems(items)
    case Other(_) => false
    case _ => true
  }

  predicate PlainItems(items: seq<Tree>)
    decreases items
  {
    items != [] ==> Plain(items[0]) && PlainItems(items[1..])
  }

  predicate PlainEntries(entries: seq<Entry>)
    decreases entries
  {
    entries != [] ==>
      assert (entries[0] decreases to entries[0].value);
      var Entry(_, value) := entries[0];
      Plain(value) && PlainEntries(entries[1..])
  }

  /** A value is encoded exactly if it is plain and not nested too deeply. */
  lemma {:induction false} EncodesExactly(t: Tree, depth: nat)
    ensures Encode(t, depth).Some? <==> Plain(t) && depth + Levels(t) <= 32
    decreases t, 0
  {
    match t
    case Dict(entries) => EntriesEncodeExactly(entries, depth + 1);
    case List(items) => ItemsEncodeExactly(items, depth + 1);
    case Tuple(items) => ItemsEncodeExactly(items, depth + 1);
    case _ =>
  }

  lemma {:induction false} ItemsEncodeExactly(items: seq<Tree>, depth: nat)
    requires depth > 0
    ensures depth <= MAX_DEPTH + 1 ==>
      (EncodeItems(items, depth).Some? <==> PlainItems(items) && depth - 1 + ItemLevels(items) <= MAX_DEPTH)
    decreases items
  {
    if items != [] {
      EncodesExactly(items[0], depth);
      ItemsEncodeExactly(items[1..], depth);
    }
  }

  lemma {:induction false} EntriesEncodeExactly(entries: seq<Entry>, depth: nat)
    requires depth > 0
    ensures depth <= MAX_DEPTH + 1 ==>
      (EncodeEntries(entries, depth).Some? <==> PlainEntries(entries) && depth - 1 + EntryLevels(entries) <= MAX_DEPTH)
    decreases entries
  {
    if entries != [] {
      assert (entries[0] decreases to entries[0].value);
      var Entry(_, value) := entries[0];
      EncodesExactly(value, depth);
      EntriesEncodeExactly(entries[1..], depth);
    }
  }

  /** Decoding what was encoded gives the value with tuples as lists, at the depth it was
      encoded at and not below the depth at which encoding would have failed.
    */
  lemma {:induction false} RoundTrip(t: Tree, depth: nat, at: nat)
    requires Encode(t, depth).Some?
    ensures Decode(Encode(t, depth).value, at) == if at + Levels(t) <= MAX_DEPTH then Some(Normal(t)) else None
    decreases t, 0
  {
    hide Base64.Encode, Base64.Decode;
    match t
    case Bytes(bytes) => Base64.RoundTrip(bytes);
    case Dict(entries) =>
      EntriesRoundTrip(entries, depth + 1, at + 1);
      EncodedKeys(entries, depth + 1);
    case List(items) => ItemsRoundTrip(items, depth + 1, at + 1);
    case Tuple(items) => ItemsRoundTrip(items, depth + 1, at + 1);
    case _ =>
  }

  lemma {:induction false} ItemsRoundTrip(items: seq<Tree>, depth: nat, at: nat)
    requires EncodeItems(items, depth).Some? && at > 0
    ensures at <= MAX_DEPTH + 1 ==>
      DecodeItems(EncodeItems(items, depth).value, at)
      == if at - 1 + ItemLevels(items) <= MAX_DEPTH then Some(NormalItems(items)) else None
    decreases items
  {
    if items != [] {
      RoundTrip(items[0], depth, at);
      ItemsRoundTrip(items[1..], depth, at);
      assert EncodeItems(items, depth).value[1..] == EncodeItems(items[1..], depth).value;
    }
  }

  lemma {:induction false} EntriesRoundTrip(entries: seq<Entry>, depth: nat, at: nat)
    requires EncodeEntries(entries, depth).Some? && at > 0
    ensures at <= MAX_DEPTH + 1 ==>
      DecodeEntries(EncodeEntries(entries, depth).value, at)
      == if at - 1 + EntryLevels(entries) <= MAX_DEPTH then Some(NormalEntries(entries)) else None
    decreases entries
  {
    if entries != [] {
      assert (entries[0] decreases to entries[0].value);
      var Entry(_, value) := entries[0];
      RoundTrip(value, depth, at);
      EntriesRoundTrip(entries[1..], depth, at);
      assert EncodeEntries(entries, depth).value[1..] == EncodeEntries(entries[1..], depth).value;
    }
  }

  lemma {:induction false} EncodedKeys(entries: seq<Entry>, depth: nat)
    requires EncodeEntries(entries, depth).Some?
    ensures var r := EncodeEntries(entries, depth).value;
            |r| == |entries| && forall i :: 0 <= i < |entries| ==> r[i].key == entries[i].key
    decreases |entries|
  {
    if entries != [] {
      EncodedKeys(entries[1..], depth);
    }
  }

  /** Values that differ by more than tuples and lists are encoded differently. */
  lemma EncodingIsInjective(t: Tree, u: Tree)
    requires Encode(t, 0).Some? && Encode(t, 0) == Encode(u, 0)
    ensures Normal(t) == Normal(u)
  {
    RoundTrip(t, 0, 0);
    RoundTrip(u, 0, 0);
    EncodesExactly(t, 0);
    EncodesExactly(u, 0);
  }

  /** What is decoded is plain and normal, and no deeper than it was written. */
  lemma {:induction false} DecodedIsPlain(t: Tree, depth: nat)
    requires Decode(t, depth).Some?
    ensures var u := Decode(t, depth).value; Plain(u) && Normal(u) == u && depth + Levels(u) <= MAX_DEPTH
    decreases t, 0
  {
    match t
    case Dict(entries) =>
      if !HasBinary(entries) {
        DecodedEntriesArePlain(entries, depth + 1);
      }
    case List(items) => DecodedItemsArePlain(items, depth + 1);
    case Tuple(items) => DecodedItemsArePlain(items, depth + 1);
    case _ =>
  }

  lemma {:induction false} DecodedItemsArePlain(items: seq<Tree>, depth: nat)
    requires DecodeItems(items, depth).Some? && 0 < depth <= MAX_DEPTH + 1
    ensures var r := DecodeItems(items, depth).value;
            PlainItems(r) && NormalItems(r) == r && depth - 1 + ItemLevels(r) <= MAX_DEPTH
    decreases items
  {
    if items != [] {
      DecodedIsPlain(items[0], depth);
      DecodedItemsArePlain(items[1..], depth);
      assert DecodeItems(items, depth).value[1..] == DecodeItems(items[1..], depth).value;
    }
  }

  lemma {:induction false} DecodedEntriesArePlain(entries: seq<Entry>, depth: nat)
    requires DecodeEntries(entries, depth).Some? && 0 < depth <= MAX_DEPTH + 1
    ensures var r := DecodeEntries(entries, depth).value;
            && PlainEntries(r) && NormalEntries(r) == r && depth - 1 + EntryLevels(r) <= MAX_DEPTH
            && |r| == |entries| && forall i :: 0 <= i < |r| ==> r[i].key == entries[i].key
    decreases entries
  {
    if entries != [] {
      assert (entries[0] decreases to entries[0].value);
      var Entry(_, value) := entries[0];
      DecodedIsPlain(value, depth);
      DecodedEntriesArePlain(entries[1..], depth);
      assert DecodeEntries(entries, depth).value[1..] == DecodeEntries(entries[1..], depth).value;
    }
  }

  /** A document that loads can be saved, and loads again as the same value. */
  lemma LoadedCanBeSaved(t: Tree)
    requires Decode(t, 0).Some?
    ensures Encode(Decode(t, 0).value, 0).Some?
    ensures Decode(Encode(Decode(t, 0).value, 0).value, 0) == Decode(t, 0)
  {
    var u := Decode(t, 0).value;
    DecodedIsPlain(t, 0);
    EncodesExactly(u, 0);
    RoundTrip(u, 0, 0);
  }
}
