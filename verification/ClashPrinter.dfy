/** The printer: it appends to a builder, map by map and key by key. */
module ClashPrinter {
  import opened Sequences
  import opened YamlText
  import opened ClashYaml
  import opened ClashConfig

  class Builder {
    var text: string

    constructor ()
      ensures text == []
    {
      text := [];
    }

    method WriteString(s: string)
      modifies this
      ensures text == old(text) + s
    {
      text := text + s;
    }
  }

  lemma Shift(lead: string, content: string, rest: string)
    ensures ((lead + content) + "\n") + rest == lead + ((content + "\n") + rest)
  {
  }

  lemma TextTail(lines: seq<Line>)
    requires lines != []
    ensures YamlText.Text(lines) == Spaces(lines[0].indent) + Tail(lines)
  {
    Shift(Spaces(lines[0].indent), lines[0].content, YamlText.Text(lines[1..]));
  }

  lemma TailAppend(a: seq<Line>, b: seq<Line>)
    requires a != []
    ensures Tail(a + b) == Tail(a) + YamlText.Text(b)
  {
    assert (a + b)[1..] == a[1..] + b;
    TextAppend(a[1..], b);
    Assoc(a[0].content + "\n", YamlText.Text(a[1..]), YamlText.Text(b));
  }

  /** The lines of some keys, the first line continuing one that is there already if `inline`. */
  ghost function Remaining(t: Tree, keys: seq<string>, n: nat, inline: bool): string
    requires t.Node? && forall k <- keys :: k in t.entries
  {
    if inline then Inline(NodeLines(t, keys, n)) else YamlText.Text(NodeLines(t, keys, n))
  }

  function Lead(n: nat, inline: bool): string {
    if inline then " " else Spaces(n)
  }

  lemma NextKey(t: Tree, keys: seq<string>, n: nat, inline: bool)
    requires t.Node? && keys != [] && forall k <- keys :: k in t.entries
    ensures Remaining(t, keys, n, inline)
         == Lead(n, inline) + (Tail(EntryLines(keys[0], t.entries[keys[0]], n)) + Remaining(t, keys[1..], n, false))
  {
    TailAppend(EntryLines(keys[0], t.entries[keys[0]], n), NodeLines(t, keys[1..], n));
    TextTail(NodeLines(t, keys, n));
  }

  /** What is still to be written for the map `t` when the keys from the i-th on are left. */
  ghost predicate Owes(text: string, target: string, t: Tree, keys: seq<string>, i: nat, n: nat, inline: bool) {
    && t.Node? && i <= |keys| && (forall k <- keys[i..] :: k in t.entries)
    && target == text + Remaining(t, keys[i..], n, inline && i == 0)
  }

  lemma JoinText(text: string, a: string, b: string, c: string)
    ensures text + (a + (b + c)) == ((text + a) + b) + c
  {
  }

  lemma OwesNext(text: string, target: string, t: Tree, keys: seq<string>, i: nat, n: nat, inline: bool)
    requires Owes(text, target, t, keys, i, n, inline) && i < |keys| && keys[i] in t.entries
    ensures Owes((text + Lead(n, inline && i == 0)) + Tail(EntryLines(keys[i], t.entries[keys[i]], n)),
                 target, t, keys, i + 1, n, inline)
  {
    assert keys[i..][1..] == keys[i + 1..];
    NextKey(t, keys[i..], n, inline && i == 0);
    JoinText(text, Lead(n, inline && i == 0), Tail(EntryLines(keys[i], t.entries[keys[i]], n)),
             Remaining(t, keys[i + 1..], n, false));
  }

  lemma OwesNothing(text: string, target: string, t: Tree, keys: seq<string>, n: nat, inline: bool)
    requires Owes(text, target, t, keys, |keys|, n, inline)
    ensures text == target
  {
    assert keys[|keys|..] == [];
  }

  /** What the printer writes for a map. */
  ghost function MapText(v: Value, n: nat, inline: bool): string {
    if inline then Inline(MapLines(v, n)) else YamlText.Text(MapLines(v, n))
  }

  /** The printer has written the keys before the i-th. */
  ghost predicate Writing(text: string, target: string, v: Value, i: nat, n: nat, inline: bool)
    requires v.Map?
  {
    var keys := SortedKeys(v.entries.Keys);
    if keys == [] then text == target else Owes(text, target, Meaning(v), keys, i, n, inline)
  }

  lemma WritingBegins(text: string, v: Value, n: nat, inline: bool)
    requires v.Map?
    ensures Writing(text, text + MapText(v, n, inline), v, 0, n, inline)
  {
    var keys := SortedKeys(v.entries.Keys);
    SortedIn(v.entries);
    assert keys[0..] == keys;
    if keys == [] {
      assert v.entries.Keys == {};
      assert v.entries == map[];
    } else {
      assert keys[0] in v.entries;
      assert Meaning(v).entries.Keys == v.entries.Keys;
    }
  }

  lemma WritingNext(text: string, target: string, v: Value, i: nat, n: nat, inline: bool)
    requires v.Map? && Writing(text, target, v, i, n, inline) && i < |SortedKeys(v.entries.Keys)|
    ensures var key := SortedKeys(v.entries.Keys)[i];
            && key in v.entries
            && Writing((text + Lead(n, inline && i == 0)) + Tail(EntryLines(key, Meaning(v.entries[key]), n)),
                       target, v, i + 1, n, inline)
  {
    var keys := SortedKeys(v.entries.Keys);
    SortedIn(v.entries);
    MeaningAt(v, keys[i]);
    OwesNext(text, target, Meaning(v), keys, i, n, inline);
  }

  lemma WritingEnds(text: string, target: string, v: Value, n: nat, inline: bool)
    requires v.Map? && Writing(text, target, v, |SortedKeys(v.entries.Keys)|, n, inline)
    ensures text == target
  {
    var keys := SortedKeys(v.entries.Keys);
    if keys != [] {
      OwesNothing(text, target, Meaning(v), keys, n, inline);
    }
  }

  /** The keys of a map in order, whatever order they are picked in. */
  method KeysOf(value: Value) returns (keys: seq<string>)
    requires value.Map?
    ensures keys == SortedKeys(value.entries.Keys)
  {
    keys := [];
    var rest := value.entries.Keys;
    while rest != {}
      invariant rest <= value.entries.Keys
      invariant multiset(keys) == multiset(value.entries.Keys - rest)
    {
      var key :| key in rest;
      keys := keys + [key];
      assert multiset(value.entries.Keys - (rest - {key})) == multiset(value.entries.Keys - rest) + multiset{key};
      rest := rest - {key};
    }
    assert value.entries.Keys - {} == value.entries.Keys;
    SortedKeysUnique(value.entries.Keys, keys);
    keys := SortStrings(keys);
  }

  lemma MeaningAt(v: Value, key: string)
    requires v.Map? && key in v.entries
    ensures Meaning(v).Node? && key in Meaning(v).entries && Meaning(v).entries[key] == Meaning(v.entries[key])
    ensures v.entries[key] < v && (Shaped(v) ==> Shaped(v.entries[key]))
  {
  }

  method WriteYamlMap(builder: Builder, value: Value, indent: nat, inlineFirst: bool)
    requires value.Map? && Shaped(value)
    modifies builder
    ensures builder.text == old(builder.text) + MapText(value, indent, inlineFirst)
    decreases value, 1
  {
    var keys := KeysOf(value);
    ghost var target := builder.text + MapText(value, indent, inlineFirst);
    WritingBegins(builder.text, value, indent, inlineFirst);
    for i := 0 to |keys|
      invariant Writing(builder.text, target, value, i, indent, inlineFirst)
    {
      WritingNext(builder.text, target, value, i, indent, inlineFirst);
      WriteKey(builder, value, keys[i], indent, inlineFirst && i == 0);
    }
    WritingEnds(builder.text, target, value, indent, inlineFirst);
  }

  /** A key and its value, on the line that is there already or on one of its own. */
  method WriteKey(builder: Builder, value: Value, key: string, indent: nat, inline: bool)
    requires value.Map? && Shaped(value) && key in value.entries
    modifies builder
    ensures builder.text == (old(builder.text) + Lead(indent, inline))
                            + Tail(EntryLines(key, Meaning(value.entries[key]), indent))
    decreases value, 0
  {
    MeaningAt(value, key);
    if inline {
      builder.WriteString(" ");
    } else {
      builder.WriteString(Spaces(indent));
    }
    WriteEntry(builder, key, value.entries[key], indent);
  }

  /** A key and its value, the indentation being there already. */
  method WriteEntry(builder: Builder, key: string, val: Value, indent: nat)
    requires Shaped(val)
    modifies builder
    ensures builder.text == old(builder.text) + Tail(EntryLines(key, Meaning(val), indent))
    decreases val, 2
  {
    ghost var was := builder.text;
    builder.WriteString(key);
    match val {
      case Map(_) =>
        builder.WriteString(":\n");
        WriteYamlMap(builder, val, indent + 2, false);
        EntryTail(was, key, Meaning(val), indent);
      case Strings(items) =>
        builder.WriteString(":\n");
        WriteStrings(builder, items, indent + 2);
        EntryTail(was, key, Meaning(val), indent);
        ListLines(val, indent + 2);
      case List(values) =>
        builder.WriteString(":\n");
        WriteItems(builder, values, indent + 2);
        EntryTail(was, key, Meaning(val), indent);
        ListLines(val, indent + 2);
      case Leaf(scalar) =>
        builder.WriteString(": ");
        WriteYamlScalar(builder, scalar);
        builder.WriteString("\n");
        LeafTail(was, key, AtomOf(scalar), indent);
    }
  }

  function Words(items: seq<string>): (ts: seq<Tree>)
    ensures |ts| == |items| && forall i | 0 <= i < |ts| :: ts[i] == Atomic(Word(items[i]))
  {
    seq(|items|, i requires 0 <= i < |items| => Atomic(Word(items[i])))
  }

  lemma ListLines(v: Value, n: nat)
    requires v.Strings? || v.List?
    ensures ValueLines(Meaning(v), n) == ItemsLines(if v.Strings? then Words(v.items) else Meanings(v.values), n)
  {
    if v.Strings? {
      assert v.items != [] ==> Meaning(v).items == Words(v.items);
    } else {
      assert v.values != [] ==> Meaning(v).items == Meanings(v.values);
    }
  }

  lemma Join4(text: string, a: string, b: string, c: string)
    ensures ((text + a) + b) + c == text + ((a + b) + c)
  {
  }

  lemma Join5(text: string, a: string, b: string, c: string, d: string)
    ensures (((text + a) + b) + c) + d == text + (((a + b) + c) + d)
  {
  }

  lemma EntryTail(text: string, key: string, t: Tree, n: nat)
    requires !t.Atomic?
    ensures ((text + key) + ":\n") + YamlText.Text(ValueLines(t, n + 2)) == text + Tail(EntryLines(key, t, n))
  {
    assert EntryLines(key, t, n) == [Line(n, key + ":")] + ValueLines(t, n + 2);
    assert EntryLines(key, t, n)[1..] == ValueLines(t, n + 2);
    Assoc(key, ":", "\n");
    assert ":" + "\n" == ":\n";
    Join4(text, key, ":\n", YamlText.Text(ValueLines(t, n + 2)));
  }

  lemma LeafTail(text: string, key: string, a: Atom, n: nat)
    ensures (((text + key) + ": ") + AtomText(a)) + "\n" == text + Tail(EntryLines(key, Atomic(a), n))
  {
    Join5(text, key, ": ", AtomText(a), "\n");
    assert EntryLines(key, Atomic(a), n)[1..] == [];
    assert (((key + ": ") + AtomText(a)) + "\n") + [] == ((key + ": ") + AtomText(a)) + "\n";
  }

  // ---- lists ----

  ghost predicate OwesItems(text: string, target: string, ts: seq<Tree>, i: nat, n: nat) {
    i <= |ts| && target == text + YamlText.Text(ItemsLines(ts[i..], n))
  }

  lemma OwesNextItem(text: string, target: string, ts: seq<Tree>, i: nat, n: nat)
    requires OwesItems(text, target, ts, i, n) && i < |ts|
    ensures OwesItems((text + Spaces(n)) + Tail(ItemLines(ts[i], n)), target, ts, i + 1, n)
  {
    var item := ItemLines(ts[i], n);
    assert ts[i..][1..] == ts[i + 1..];
    TailAppend(item, ItemsLines(ts[i + 1..], n));
    TextTail(ItemsLines(ts[i..], n));
    JoinText(text, Spaces(n), Tail(item), YamlText.Text(ItemsLines(ts[i + 1..], n)));
  }

  method WriteStrings(builder: Builder, items: seq<string>, indent: nat)
    modifies builder
    ensures builder.text == old(builder.text) + YamlText.Text(ItemsLines(Words(items), indent))
  {
    ghost var ts := Words(items);
    ghost var target := builder.text + YamlText.Text(ItemsLines(ts, indent));
    assert ts[0..] == ts;
    for i := 0 to |items|
      invariant OwesItems(builder.text, target, ts, i, indent)
    {
      OwesNextItem(builder.text, target, ts, i, indent);
      builder.WriteString(Spaces(indent));
      LeafItem(builder.text, Word(items[i]), indent);
      builder.WriteString("- ");
      builder.WriteString(Quoted(items[i]));
      builder.WriteString("\n");
    }
    NoItems(builder.text, target, ts, indent);
  }

  lemma NoItems(text: string, target: string, ts: seq<Tree>, n: nat)
    requires OwesItems(text, target, ts, |ts|, n)
    ensures text == target
  {
    assert ts[|ts|..] == [];
  }

  lemma LeafItem(text: string, a: Atom, n: nat)
    ensures ((text + "- ") + AtomText(a)) + "\n" == text + Tail(ItemLines(Atomic(a), n))
  {
    Join4(text, "- ", AtomText(a), "\n");
    assert ItemLines(Atomic(a), n)[1..] == [];
    assert (("- " + AtomText(a)) + "\n") + [] == ("- " + AtomText(a)) + "\n";
  }

  method WriteItems(builder: Builder, values: seq<Value>, indent: nat)
    requires forall i | 0 <= i < |values| :: (values[i].Map? || values[i].Leaf?) && Shaped(values[i])
    modifies builder
    ensures builder.text == old(builder.text) + YamlText.Text(ItemsLines(Meanings(values), indent))
    decreases values, 0
  {
    ghost var ts := Meanings(values);
    ghost var target := builder.text + YamlText.Text(ItemsLines(ts, indent));
    assert ts[0..] == ts;
    for i := 0 to |values|
      invariant OwesItems(builder.text, target, ts, i, indent)
    {
      OwesNextItem(builder.text, target, ts, i, indent);
      builder.WriteString(Spaces(indent));
      ghost var was := builder.text;
      builder.WriteString("- ");
      WriteYamlScalarOrInlineMap(builder, values[i], indent + 2);
      ItemTail(was, values[i], indent);
    }
    NoItems(builder.text, target, ts, indent);
  }

  /** What follows the dash of an item. */
  ghost function ItemText(item: Value, indent: nat): string {
    if item.Leaf? then AtomText(AtomOf(item.scalar)) + "\n" else "\n" + YamlText.Text(MapLines(item, indent))
  }

  lemma ItemTail(text: string, item: Value, n: nat)
    requires item.Map? || item.Leaf?
    ensures (text + "- ") + ItemText(item, n + 2) == text + Tail(ItemLines(Meaning(item), n))
  {
    var t := Meaning(item);
    if item.Leaf? {
      Assoc(text + "- ", AtomText(AtomOf(item.scalar)), "\n");
      LeafItem(text, AtomOf(item.scalar), n);
    } else {
      var block := MapLines(item, n + 2);
      assert ItemLines(t, n) == [Line(n, "- ")] + block;
      assert ItemLines(t, n)[1..] == block;
      Assoc(text + "- ", "\n", YamlText.Text(block));
      Join4(text, "- ", "\n", YamlText.Text(block));
    }
  }

  method WriteYamlScalarOrInlineMap(builder: Builder, item: Value, indent: nat)
    requires (item.Map? || item.Leaf?) && Shaped(item)
    modifies builder
    ensures builder.text == old(builder.text) + ItemText(item, indent)
    decreases item, 3
  {
    ghost var was := builder.text;
    match item {
      case Map(_) =>
        builder.WriteString("\n");
        WriteYamlMap(builder, item, indent, false);
        Assoc(was, "\n", YamlText.Text(MapLines(item, indent)));
      case Leaf(scalar) =>
        WriteYamlScalar(builder, scalar);
        builder.WriteString("\n");
        Assoc(was, AtomText(AtomOf(scalar)), "\n");
    }
  }

  method WriteYamlScalar(builder: Builder, scalar: Scalar)
    modifies builder
    ensures builder.text == old(builder.text) + AtomText(AtomOf(scalar))
  {
    match scalar {
      case Text(s) => builder.WriteString(Quoted(s));
      case Bool(b) => if b { builder.WriteString("true"); } else { builder.WriteString("false"); }
      case Int(n) => builder.WriteString(Decimal(n));
      case Nil => builder.WriteString("''");
      case Other(printed) => builder.WriteString(Quoted(printed));
    }
  }

  // ---- the file ----

  predicate IsMap(v: Value) {
    v.Map? && Shaped(v)
  }

  predicate AllMaps(vs: seq<Value>) {
    forall i | 0 <= i < |vs| :: IsMap(vs[i])
  }

  /** The first `n` maps of a section have been appended to `before`. */
  ghost predicate SectionWritten(text: string, before: string, vs: seq<Value>, n: nat) {
    n <= |vs| && text == before + SectionText(vs, n)
  }

  lemma SectionGrows(text: string, before: string, vs: seq<Value>, n: nat)
    requires SectionWritten(text, before, vs, n) && n < |vs|
    ensures SectionWritten((text + "  -") + Inline(MapLines(vs[n], 4)), before, vs, n + 1)
  {
    var inline := Inline(MapLines(vs[n], 4));
    Join4(before, SectionText(vs, n), "  -", inline);
    Assoc(SectionText(vs, n), "  -", inline);
  }

  method WriteSection(builder: Builder, vs: seq<Value>)
    requires AllMaps(vs)
    modifies builder
    ensures builder.text == old(builder.text) + SectionText(vs, |vs|)
  {
    ghost var was := builder.text;
    for i := 0 to |vs|
      invariant SectionWritten(builder.text, was, vs, i)
    {
      SectionGrows(builder.text, was, vs, i);
      WriteListed(builder, vs[i]);
    }
  }

  method WriteListed(builder: Builder, v: Value)
    requires IsMap(v)
    modifies builder
    ensures builder.text == (old(builder.text) + "  -") + Inline(MapLines(v, 4))
  {
    builder.WriteString("  -");
    WriteYamlMap(builder, v, 4, true);
  }

  method WriteRules(builder: Builder, rules: seq<string>)
    modifies builder
    ensures builder.text == old(builder.text) + RulesText(rules, |rules|)
  {
    ghost var was := builder.text;
    for i := 0 to |rules|
      invariant builder.text == was + RulesText(rules, i)
    {
      ghost var before := builder.text;
      builder.WriteString("  - ");
      builder.WriteString(Quoted(rules[i]));
      builder.WriteString("\n");
      Join4(before, "  - ", Quoted(rules[i]), "\n");
      Assoc(was, RulesText(rules, i), "  - " + Quoted(rules[i]) + "\n");
    }
  }

  lemma JoinSections(p: string, a: string, g: string, b: string, r: string, c: string)
    ensures ((((p + a) + g) + b) + r) + c == p + (a + (g + (b + (r + c))))
  {
  }

  /** The configuration file. */
  method RenderClashConfig(cfg: Config) returns (text: string)
    requires AllMaps(cfg.proxies) && AllMaps(cfg.groups)
    ensures text == Render(cfg)
  {
    var builder := new Builder();
    builder.WriteString("proxies:\n");
    assert builder.text == "proxies:\n";
    WriteSection(builder, cfg.proxies);
    builder.WriteString("proxy-groups:\n");
    WriteSection(builder, cfg.groups);
    builder.WriteString("rules:\n");
    WriteRules(builder, cfg.rules);
    text := builder.text;
    JoinSections("proxies:\n", SectionText(cfg.proxies, |cfg.proxies|), "proxy-groups:\n",
                 SectionText(cfg.groups, |cfg.groups|), "rules:\n", RulesText(cfg.rules, |cfg.rules|));
  }
}
