/** The text of a client configuration in YAML, and a reader of that text that gives the configuration back. */
module ClashYaml {
  import opened Sequences
  import opened YamlText

  // ---- configurations ----

  /** A scalar; `Other` is a value of any other type, given by what it prints as. */
  datatype Scalar = Text(text: string) | Bool(flag: bool) | Int(number: int) | Nil | Other(printed: string)

  /** A value of the configuration. A list inside a list is printed like a scalar, and is given as `Other`. */
  datatype Value =
    | Map(entries: map<string, Value>)
    | Strings(items: seq<string>)
    | List(values: seq<Value>)
    | Leaf(scalar: Scalar)

  predicate Shaped(v: Value) {
    match v
    case Map(entries) => forall k <- entries :: Shaped(entries[k])
    case Strings(_) => true
    case List(values) => forall i | 0 <= i < |values| :: (values[i].Map? || values[i].Leaf?) && Shaped(values[i])
    case Leaf(_) => true
  }

  datatype Atom = Word(text: string) | Truth(flag: bool) | Number(number: int)

  /** What a value means in YAML: typed nil and other types are strings, and nothing follows an empty block's key. */
  datatype Tree = Node(entries: map<string, Tree>) | Items(items: seq<Tree>) | Atomic(atom: Atom) | Null

  function AtomOf(s: Scalar): Atom {
    match s
    case Text(text) => Word(text)
    case Bool(flag) => Truth(flag)
    case Int(number) => Number(number)
    case Nil => Word("")
    case Other(printed) => Word(printed)
  }

  function Meaning(v: Value): Tree {
    match v
    case Map(entries) => if entries == map[] then Null else Node(map k | k in entries :: Meaning(entries[k]))
    case Strings(items) =>
      if items == [] then Null else Items(seq(|items|, i requires 0 <= i < |items| => Atomic(Word(items[i]))))
    case List(values) =>
      if values == [] then Null else Items(seq(|values|, i requires 0 <= i < |values| => Meaning(values[i])))
    case Leaf(s) => Atomic(AtomOf(s))
  }

  /**
   The tree holds what the value holds: the same keys, the same items in order, each scalar with its own type; nil
   is the empty string and any other type the string it prints as. Nothing is held below an empty map or list.
   */
  predicate Shows(v: Value, t: Tree) {
    match v
    case Map(entries) =>
      if entries == map[] then t.Null?
      else t.Node? && t.entries.Keys == entries.Keys && forall k <- entries :: Shows(entries[k], t.entries[k])
    case Strings(items) =>
      if items == [] then t.Null?
      else t.Items? && |t.items| == |items| && forall i | 0 <= i < |items| :: t.items[i] == Atomic(Word(items[i]))
    case List(values) =>
      if values == [] then t.Null?
      else t.Items? && |t.items| == |values| && forall i | 0 <= i < |values| :: Shows(values[i], t.items[i])
    case Leaf(Text(s)) => t == Atomic(Word(s))
    case Leaf(Bool(b)) => t == Atomic(Truth(b))
    case Leaf(Int(n)) => t == Atomic(Number(n))
    case Leaf(Nil) => t == Atomic(Word(""))
    case Leaf(Other(printed)) => t == Atomic(Word(printed))
  }

  lemma {:induction false} MeaningShows(v: Value)
    ensures Shows(v, Meaning(v))
  {
    match v
    case Map(entries) =>
      forall k <- entries ensures Shows(entries[k], Meaning(entries[k])) { MeaningShows(entries[k]); }
    case Strings(_) =>
    case List(values) =>
      forall i | 0 <= i < |values| ensures Shows(values[i], Meaning(values[i])) { MeaningShows(values[i]); }
    case Leaf(_) =>
  }

  /** A key that needs no quotes: no colon, no line break, and nothing that reads as indentation or a list item. */
  predicate PlainKey(k: string) {
    OneLine(k) && ':' !in k && (k == [] || (k[0] != ' ' && k[0] != '-'))
  }

  predicate Plain(v: Value) {
    match v
    case Map(entries) => forall k <- entries :: PlainKey(k) && Plain(entries[k])
    case Strings(items) => forall s <- items :: OneLine(s)
    case List(values) => forall i | 0 <= i < |values| :: Plain(values[i])
    case Leaf(Text(s)) => OneLine(s)
    case Leaf(Other(s)) => OneLine(s)
    case Leaf(_) => true
  }

  /** What the reader can give back. */
  predicate Readable(t: Tree) {
    match t
    case Node(entries) => entries != map[] && forall k <- entries :: PlainKey(k) && Readable(entries[k])
    case Items(items) => items != [] && forall i | 0 <= i < |items| :: !items[i].Items? && Readable(items[i])
    case Atomic(Word(s)) => OneLine(s)
    case Atomic(_) => true
    case Null => true
  }

  lemma {:induction false} PlainReadable(v: Value)
    requires Plain(v) && Shaped(v)
    ensures Readable(Meaning(v))
    ensures v.Map? || v.Leaf? ==> !Meaning(v).Items?
  {
    match v
    case Map(entries) =>
      forall k <- entries ensures Readable(Meaning(entries[k])) { PlainReadable(entries[k]); }
      if entries != map[] {
        var k :| k in entries;
        assert k in Meaning(v).entries;
      }
    case Strings(items) =>
    case List(values) =>
      forall i | 0 <= i < |values|
        ensures Readable(Meaning(values[i])) && !Meaning(values[i]).Items?
      {
        PlainReadable(values[i]);
      }
    case Leaf(_) =>
  }

  // ---- the lines of a tree ----

  function AtomText(a: Atom): string {
    match a
    case Word(s) => Quoted(s)
    case Truth(b) => if b then "true" else "false"
    case Number(n) => Decimal(n)
  }

  ghost function NodeLines(t: Tree, keys: seq<string>, n: nat): seq<Line>
    requires t.Node? && forall k <- keys :: k in t.entries
    decreases t, 0, |keys|
  {
    if keys == [] then [] else EntryLines(keys[0], t.entries[keys[0]], n) + NodeLines(t, keys[1..], n)
  }

  /** All the lines of a map, its keys in order. */
  ghost function BlockLines(t: Tree, n: nat): seq<Line>
    requires t.Node?
    decreases t, 1, 0
  {
    SortedIn(t.entries);
    NodeLines(t, SortedKeys(t.entries.Keys), n)
  }

  lemma SortedIn<T>(entries: map<string, T>)
    ensures forall k :: k in SortedKeys(entries.Keys) <==> k in entries
  {
    var s := SortedKeys(entries.Keys);
    assert forall k :: k in s <==> k in multiset(s);
    assert forall k :: k in entries <==> k in multiset(entries.Keys);
  }

  ghost function EntryLines(key: string, t: Tree, n: nat): seq<Line>
    decreases t, 2, 0
  {
    match t
    case Atomic(a) => [Line(n, key + ": " + AtomText(a))]
    case Null => [Line(n, key + ":")]
    case Node(_) => [Line(n, key + ":")] + BlockLines(t, n + 2)
    case Items(items) => [Line(n, key + ":")] + ItemsLines(items, n + 2)
  }

  ghost function ItemsLines(items: seq<Tree>, n: nat): seq<Line>
    decreases items, 0, 0
  {
    if items == [] then [] else ItemLines(items[0], n) + ItemsLines(items[1..], n)
  }

  ghost function ItemLines(t: Tree, n: nat): seq<Line>
    decreases t, 2, 0
  {
    match t
    case Atomic(a) => [Line(n, "- " + AtomText(a))]
    case Node(_) => [Line(n, "- ")] + BlockLines(t, n + 2)
    case _ => [Line(n, "- ")]
  }

  /** What stands after the key of a scalar. */
  lemma ScalarsInPrint()
    ensures AtomText(AtomOf(Bool(true))) == "true" && AtomText(AtomOf(Bool(false))) == "false"
    ensures AtomText(AtomOf(Int(0))) == "0" && AtomText(AtomOf(Int(-40))) == "-40"
    ensures AtomText(AtomOf(Text("it's"))) == "'it''s'" && AtomText(AtomOf(Nil)) == "''"
  {
    NumbersInPrint();
    StringsInPrint();
  }

  lemma ScalarLine(key: string, s: Scalar, n: nat)
    ensures EntryLines(key, Meaning(Leaf(s)), n) == [Line(n, key + ": " + AtomText(AtomOf(s)))]
  {}

  lemma OneKey(key: string, t: Tree, n: nat)
    ensures BlockLines(Node(map[key := t]), n) == EntryLines(key, t, n)
  {
    var node := Node(map[key := t]);
    assert multiset([key]) == multiset({key});
    SortedUnique([key], SortedKeys({key}));
    assert node.entries.Keys == {key} && [key][1..] == [];
    assert NodeLines(node, [key], n) == EntryLines(key, t, n) + [];
  }

  lemma OneItem(t: Tree, n: nat)
    ensures ItemsLines([t], n) == ItemLines(t, n)
  {
    assert [t][1..] == [];
    assert ItemsLines([t], n) == ItemLines(t, n) + [];
  }

  lemma OneEntryMap(key: string, v: Value)
    ensures Meaning(Map(map[key := v])) == Node(map[key := Meaning(v)])
  {
    var m := map[key := v];
    assert m[key] == v && Meaning(Map(m)).entries == map[key := Meaning(v)];
  }

  /** What stands inside a map stands two columns deeper. */
  lemma MapInPrint(key: string, inner: string, v: Value, n: nat)
    ensures EntryLines(key, Meaning(Map(map[inner := v])), n)
         == [Line(n, key + ":")] + EntryLines(inner, Meaning(v), n + 2)
  {
    OneEntryMap(inner, v);
    OneKey(inner, Meaning(v), n + 2);
  }

  /** So does what stands inside a list; what stands in a map in it, two columns more. */
  lemma ListInPrint(key: string, inner: string, v: Value, text: string, n: nat)
    ensures EntryLines(key, Meaning(Strings([text])), n)
         == [Line(n, key + ":")] + [Line(n + 2, "- " + Quoted(text))]
    ensures EntryLines(key, Meaning(List([Map(map[inner := v])])), n)
         == [Line(n, key + ":")] + ([Line(n + 2, "- ")] + EntryLines(inner, Meaning(v), n + 4))
  {
    OneEntryMap(inner, v);
    var (m, w) := (Node(map[inner := Meaning(v)]), Atomic(Word(text)));
    OneKey(inner, Meaning(v), n + 4);
    OneItem(w, n + 2);
    OneItem(m, n + 2);
    assert Meaning(Strings([text])).items == [w];
    assert Meaning(List([Map(map[inner := v])])).items == [m];
  }

  // ---- the reader ----

  function AtomRead(s: string): Atom {
    if s != [] && s[0] == '\'' then Word(Unquoted(s[1..]))
    else if s == "true" then Truth(true)
    else if s == "false" then Truth(false)
    else Number(IntOf(s))
  }

  /** Reads the entries at indentation `n`, and what is left. */
  function ReadMap(lines: seq<Line>, n: nat): (r: (map<string, Tree>, seq<Line>))
    ensures |r.1| <= |lines|
    ensures lines != [] && lines[0].indent == n ==> |r.1| < |lines|
    decreases |lines|, 0
  {
    if lines == [] || lines[0].indent != n then (map[], lines)
    else
      var content := lines[0].content;
      var colon := Find(content, ':', 0);
      var value := if |content| - colon > 2 then (Atomic(AtomRead(content[colon + 2..])), lines[1..])
                   else ReadBlock(lines[1..], n + 2);
      var others := ReadMap(value.1, n);
      (others.0[content[..colon] := value.0], others.1)
  }

  /** Reads what follows a key without a value. */
  function ReadBlock(lines: seq<Line>, n: nat): (r: (Tree, seq<Line>))
    ensures |r.1| <= |lines|
    decreases |lines|, 2
  {
    if lines == [] || lines[0].indent != n then (Null, lines)
    else if IsItem(lines[0]) then
      var r := ReadItems(lines, n);
      (Items(r.0), r.1)
    else
      var r := ReadMap(lines, n);
      (Node(r.0), r.1)
  }

  predicate IsItem(line: Line) {
    |line.content| >= 2 && line.content[..2] == "- "
  }

  function ReadItems(lines: seq<Line>, n: nat): (r: (seq<Tree>, seq<Line>))
    ensures |r.1| <= |lines|
    decreases |lines|, 1
  {
    if lines == [] || lines[0].indent != n || !IsItem(lines[0]) then ([], lines)
    else
      var content := lines[0].content;
      var item := if |content| > 2 then (Atomic(AtomRead(content[2..])), lines[1..])
                  else var r := ReadMap(lines[1..], n + 2); (if r.0 == map[] then Null else Node(r.0), r.1);
      var others := ReadItems(item.1, n);
      ([item.0] + others.0, others.1)
  }

  // ---- the reader gives a tree back ----

  lemma AtomBack(a: Atom)
    ensures AtomText(a) != [] && AtomRead(AtomText(a)) == a
  {
    match a
    case Word(s) =>
      UnquotedDoubled(s);
      assert Quoted(s)[1..] == Doubled(s) + "'";
    case Truth(_) =>
    case Number(n) => IntOfDecimal(n);
  }

  /** What follows the block at indentation `n`. */
  predicate Stops(rest: seq<Line>, n: nat) {
    rest == [] || rest[0].indent < n
  }

  function Restrict(t: Tree, keys: seq<string>): map<string, Tree>
    requires t.Node? && forall k <- keys :: k in t.entries
  {
    if keys == [] then map[] else Restrict(t, keys[1..])[keys[0] := t.entries[keys[0]]]
  }

  lemma {:induction false} RestrictKeys(t: Tree, keys: seq<string>)
    requires t.Node? && forall k <- keys :: k in t.entries
    ensures forall k :: k in Restrict(t, keys) <==> k in keys
    ensures forall k <- keys :: Restrict(t, keys)[k] == t.entries[k]
  {
    if keys != [] {
      RestrictKeys(t, keys[1..]);
      assert keys == [keys[0]] + keys[1..];
    }
  }

  lemma RestrictAll(t: Tree)
    requires t.Node?
    ensures forall k <- SortedKeys(t.entries.Keys) :: k in t.entries
    ensures Restrict(t, SortedKeys(t.entries.Keys)) == t.entries
  {
    SortedIn(t.entries);
    RestrictKeys(t, SortedKeys(t.entries.Keys));
  }

  lemma KeyBack(key: string, tail: string)
    requires PlainKey(key)
    ensures Find(key + ":" + tail, ':', 0) == |key|
    ensures !IsItem(Line(0, key + ":" + tail))
  {
    var s := key + ":" + tail;
    assert forall k | 0 <= k < |key| :: s[k] == key[k] && key[k] in key;
    assert s[|key|] == ':';
    assert s[0] != '-' && "- "[0] == '-';
    assert |s| >= 2 ==> s[..2][0] == s[0];
  }

  lemma AtomLineBack(content: string, key: string, n: nat, rest: seq<Line>)
    requires Find(content, ':', 0) == |key| && |content| > |key| + 2 && content[..|key|] == key
    ensures var others := ReadMap(rest, n);
            ReadMap([Line(n, content)] + rest, n)
            == (others.0[key := Atomic(AtomRead(content[|key| + 2..]))], others.1)
  {
    var lines := [Line(n, content)] + rest;
    assert lines[1..] == rest;
  }

  lemma AtomicEntryBack(key: string, a: Atom, n: nat, rest: seq<Line>)
    requires PlainKey(key)
    ensures var others := ReadMap(rest, n);
            ReadMap(EntryLines(key, Atomic(a), n) + rest, n) == (others.0[key := Atomic(a)], others.1)
  {
    var text := AtomText(a);
    KeyBack(key, " " + text);
    AtomBack(a);
    KeyAndText(key, text);
    AtomLineBack(key + ": " + text, key, n, rest);
  }

  lemma KeyAndText(key: string, text: string)
    ensures key + ": " + text == key + ":" + (" " + text)
    ensures (key + ": " + text)[|key| + 2..] == text && (key + ": " + text)[..|key|] == key
  {
  }

  lemma KeyLineBack(key: string, n: nat, below: seq<Line>)
    requires PlainKey(key)
    ensures var value := ReadBlock(below, n + 2);
            var others := ReadMap(value.1, n);
            ReadMap([Line(n, key + ":")] + below, n) == (others.0[key := value.0], others.1)
  {
    var lines := [Line(n, key + ":")] + below;
    KeyBack(key, "");
    assert key + ":" == key + ":" + "";
    assert lines[0].content[..|key|] == key;
    assert lines[1..] == below;
  }

  /** The lines below a key whose value is not a scalar. */
  ghost function ValueLines(t: Tree, n: nat): seq<Line>
    requires !t.Atomic?
  {
    if t.Node? then BlockLines(t, n) else if t.Items? then ItemsLines(t.items, n) else []
  }

  lemma EntryIs(key: string, t: Tree, n: nat)
    requires !t.Atomic?
    ensures EntryLines(key, t, n) == [Line(n, key + ":")] + ValueLines(t, n + 2)
  {
    assert [Line(n, key + ":")] + [] == [Line(n, key + ":")];
  }

  lemma {:induction false} EntryBack(key: string, t: Tree, n: nat, rest: seq<Line>)
    requires Readable(t) && PlainKey(key) && Stops(rest, n + 1)
    ensures var others := ReadMap(rest, n);
            ReadMap(EntryLines(key, t, n) + rest, n) == (others.0[key := t], others.1)
    decreases t, 2, 0
  {
    if t.Atomic? {
      AtomicEntryBack(key, t.atom, n, rest);
    } else {
      EntryIs(key, t, n);
      Assoc([Line(n, key + ":")], ValueLines(t, n + 2), rest);
      KeyLineBack(key, n, ValueLines(t, n + 2) + rest);
      ValueBack(t, n + 2, rest);
    }
  }

  lemma {:induction false} ValueBack(t: Tree, n: nat, rest: seq<Line>)
    requires Readable(t) && n > 0 && Stops(rest, n) && !t.Atomic?
    ensures ReadBlock(ValueLines(t, n) + rest, n) == (t, rest)
    decreases t, 1, 1
  {
    if t.Null? {
      assert ValueLines(t, n) + rest == rest;
    } else if t.Node? {
      BlockBack(t, n, rest);
      BlockStarts(t, n);
    } else {
      ItemsBack(t.items, n, rest);
      assert ItemsLines(t.items, n)[0] == ItemLines(t.items[0], n)[0];
      assert IsItem(ItemsLines(t.items, n)[0]);
    }
  }

  lemma BlockStarts(t: Tree, n: nat)
    requires Readable(t) && t.Node?
    ensures var lines := BlockLines(t, n);
            lines != [] && lines[0].indent == n && !IsItem(lines[0]) && Clear(lines[0])
  {
    var keys := SortedKeys(t.entries.Keys);
    SortedIn(t.entries);
    assert keys != [] by {
      var k :| k in t.entries;
      assert k in keys;
    }
    EntryStarts(keys[0], t.entries[keys[0]], n);
  }

  lemma EntryStarts(key: string, t: Tree, n: nat)
    requires Readable(t) && PlainKey(key)
    ensures var line := EntryLines(key, t, n)[0];
            line.indent == n && !IsItem(line) && Clear(line) && line.content != []
  {
    var tail := if t.Atomic? then " " + AtomText(t.atom) else "";
    KeyBack(key, tail);
    if t.Atomic? { AtomOneLine(t.atom); }
    assert EntryLines(key, t, n)[0].content == key + ":" + tail;
  }

  lemma AtomOneLine(a: Atom)
    requires Readable(Atomic(a))
    ensures OneLine(AtomText(a))
  {
    if a.Word? { DoubledOneLine(a.text); }
  }

  lemma {:induction false} BlockBack(t: Tree, n: nat, rest: seq<Line>)
    requires Readable(t) && t.Node? && Stops(rest, n)
    ensures ReadMap(BlockLines(t, n) + rest, n) == (t.entries, rest)
    decreases t, 1, 0
  {
    SortedIn(t.entries);
    NodeBack(t, SortedKeys(t.entries.Keys), n, rest);
    RestrictAll(t);
  }

  /** What follows an entry is at no greater indentation. */
  lemma NodeStops(t: Tree, keys: seq<string>, n: nat, rest: seq<Line>)
    requires Readable(t) && t.Node? && Stops(rest, n) && forall k <- keys :: k in t.entries
    ensures Stops(NodeLines(t, keys, n) + rest, n + 1)
  {
    if keys != [] {
      EntryStarts(keys[0], t.entries[keys[0]], n);
    }
  }

  lemma ItemsStop(items: seq<Tree>, n: nat, rest: seq<Line>)
    requires Stops(rest, n)
    ensures Stops(ItemsLines(items, n) + rest, n + 1)
  {
    if items != [] {
      assert ItemsLines(items, n)[0] == ItemLines(items[0], n)[0];
    }
  }

  lemma {:induction false} NodeBack(t: Tree, keys: seq<string>, n: nat, rest: seq<Line>)
    requires Readable(t) && t.Node? && Stops(rest, n)
    requires forall k <- keys :: k in t.entries
    ensures ReadMap(NodeLines(t, keys, n) + rest, n) == (Restrict(t, keys), rest)
    decreases t, 0, |keys|
  {
    if keys == [] {
      assert NodeLines(t, keys, n) + rest == rest;
    } else {
      var (key, more) := (keys[0], NodeLines(t, keys[1..], n) + rest);
      NodeBack(t, keys[1..], n, rest);
      NodeStops(t, keys[1..], n, rest);
      EntryBack(key, t.entries[key], n, more);
      Assoc(EntryLines(key, t.entries[key], n), NodeLines(t, keys[1..], n), rest);
    }
  }

  lemma {:induction false} ItemsBack(items: seq<Tree>, n: nat, rest: seq<Line>)
    requires forall i | 0 <= i < |items| :: !items[i].Items? && Readable(items[i])
    requires Stops(rest, n)
    ensures ReadItems(ItemsLines(items, n) + rest, n) == (items, rest)
    decreases items, 0, 0
  {
    if items == [] {
      assert ItemsLines(items, n) + rest == rest;
    } else {
      var (item, more) := (items[0], ItemsLines(items[1..], n) + rest);
      ItemsBack(items[1..], n, rest);
      Assoc(ItemLines(item, n), ItemsLines(items[1..], n), rest);
      HeadTail(items);
      ItemsStop(items[1..], n, rest);
      ItemBack(item, n, more);
    }
  }

  /** A dash with a scalar. */
  lemma AtomicItemBack(a: Atom, n: nat, more: seq<Line>)
    ensures var others := ReadItems(more, n);
            ReadItems([Line(n, "- " + AtomText(a))] + more, n) == ([Atomic(a)] + others.0, others.1)
  {
    var lines := [Line(n, "- " + AtomText(a))] + more;
    AtomBack(a);
    assert lines[0].content[2..] == AtomText(a) && lines[0].content[..2] == "- ";
    assert lines[1..] == more;
  }

  /** A dash alone, and what is below it. */
  lemma DashBack(n: nat, below: seq<Line>)
    ensures var r := ReadMap(below, n + 2);
            var others := ReadItems(r.1, n);
            ReadItems([Line(n, "- ")] + below, n) == ([if r.0 == map[] then Null else Node(r.0)] + others.0, others.1)
  {
    var lines := [Line(n, "- ")] + below;
    assert lines[0].content[..2] == "- ";
    assert lines[1..] == below;
  }

  lemma {:induction false} ItemBack(t: Tree, n: nat, more: seq<Line>)
    requires Readable(t) && !t.Items? && Stops(more, n + 1)
    ensures var others := ReadItems(more, n);
            ReadItems(ItemLines(t, n) + more, n) == ([t] + others.0, others.1)
    decreases t, 2, 0
  {
    if t.Atomic? {
      AtomicItemBack(t.atom, n, more);
    } else if t.Node? {
      DashBack(n, BlockLines(t, n + 2) + more);
      BlockBack(t, n + 2, more);
      Assoc([Line(n, "- ")], BlockLines(t, n + 2), more);
    } else {
      DashBack(n, more);
    }
  }
}
