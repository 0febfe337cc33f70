/** The whole configuration file: three sections, and what two files with the same text have in common. */
module ClashConfig {
  import opened Options
  import opened Sequences
  import opened YamlText
  import opened ClashYaml

  /** The configuration: proxies and proxy groups are maps. */
  datatype Config = Config(proxies: seq<Value>, groups: seq<Value>, rules: seq<string>)

  /** What it means in YAML. */
  datatype Document = Document(proxies: seq<Tree>, groups: seq<Tree>, rules: seq<string>)

  function Meanings(vs: seq<Value>): seq<Tree> {
    seq(|vs|, i requires 0 <= i < |vs| => Meaning(vs[i]))
  }

  function DocumentOf(cfg: Config): Document {
    Document(Meanings(cfg.proxies), Meanings(cfg.groups), cfg.rules)
  }

  /** The lines of a map; an empty one has none. */
  ghost function MapLines(v: Value, n: nat): seq<Line> {
    if Meaning(v).Node? then BlockLines(Meaning(v), n) else []
  }

  /** A list of lines without the indentation of the first. */
  function Tail(lines: seq<Line>): string
    requires lines != []
  {
    (lines[0].content + "\n") + YamlText.Text(lines[1..])
  }

  /** Lines of which the first one continues a line that is there already. */
  function Inline(lines: seq<Line>): string {
    if lines == [] then [] else " " + Tail(lines)
  }

  ghost function SectionText(vs: seq<Value>, n: nat): string
    requires n <= |vs|
  {
    if n == 0 then [] else SectionText(vs, n - 1) + ("  -" + Inline(MapLines(vs[n - 1], 4)))
  }

  function RulesText(rules: seq<string>, n: nat): string
    requires n <= |rules|
  {
    if n == 0 then [] else RulesText(rules, n - 1) + ("  - " + Quoted(rules[n - 1]) + "\n")
  }

  ghost function Render(cfg: Config): string {
    "proxies:\n" + (SectionText(cfg.proxies, |cfg.proxies|)
    + ("proxy-groups:\n" + (SectionText(cfg.groups, |cfg.groups|)
    + ("rules:\n" + RulesText(cfg.rules, |cfg.rules|)))))
  }

  // ---- the same in lines ----

  predicate Entry(t: Tree) {
    t.Node? && Readable(t)
  }

  predicate Entries(ts: seq<Tree>) {
    forall i | 0 <= i < |ts| :: Entry(ts[i])
  }

  ghost function InlineLines(t: Tree): seq<Line>
    requires Entry(t)
  {
    BlockStarts(t, 4);
    var lines := BlockLines(t, 4);
    [Line(2, "- " + lines[0].content)] + lines[1..]
  }

  ghost function Blocks(ts: seq<Tree>): (bs: seq<seq<Line>>)
    requires Entries(ts)
    ensures |bs| == |ts| && forall i | 0 <= i < |ts| :: bs[i] == InlineLines(ts[i])
  {
    seq(|ts|, i requires 0 <= i < |ts| => InlineLines(ts[i]))
  }

  function Join(bs: seq<seq<Line>>): seq<Line> {
    if bs == [] then [] else bs[0] + Join(bs[1..])
  }

  ghost function SectionLines(ts: seq<Tree>): seq<Line>
    requires Entries(ts)
  {
    Join(Blocks(ts))
  }

  function RulesLines(rules: seq<string>): seq<Line> {
    seq(|rules|, i requires 0 <= i < |rules| => Line(2, "- " + Quoted(rules[i])))
  }

  /** The three sections below their headings. */
  function Sections(a: seq<Line>, b: seq<Line>, c: seq<Line>): seq<Line> {
    [Line(0, "proxies:")] + (a + ([Line(0, "proxy-groups:")] + (b + ([Line(0, "rules:")] + c))))
  }

  ghost function DocumentLines(d: Document): seq<Line>
    requires Legible(d)
  {
    Sections(SectionLines(d.proxies), SectionLines(d.groups), RulesLines(d.rules))
  }

  predicate Legible(d: Document) {
    Entries(d.proxies) && Entries(d.groups) && forall r <- d.rules :: OneLine(r)
  }

  lemma TextOne(line: Line)
    ensures YamlText.Text([line]) == LineText(line)
  {
    assert [line][1..] == [];
  }

  lemma TextCons(line: Line, rest: seq<Line>)
    ensures YamlText.Text([line] + rest) == LineText(line) + YamlText.Text(rest)
  {
    TextOne(line);
    TextAppend([line], rest);
  }

  lemma JoinDash(content: string, rest: string)
    ensures "  -" + (" " + ((content + "\n") + rest)) == (("  " + ("- " + content)) + "\n") + rest
  {
  }

  lemma InlineText(t: Tree)
    requires Entry(t)
    ensures "  -" + Inline(BlockLines(t, 4)) == YamlText.Text(InlineLines(t))
  {
    var lines := BlockLines(t, 4);
    BlockStarts(t, 4);
    TextCons(Line(2, "- " + lines[0].content), lines[1..]);
    TwoSpaces("- " + lines[0].content);
    JoinDash(lines[0].content, YamlText.Text(lines[1..]));
  }

  lemma TwoSpaces(content: string)
    ensures LineText(Line(2, content)) == "  " + content + "\n"
  {
    assert Spaces(2) == "  ";
  }

  lemma {:induction false} JoinSnoc(bs: seq<seq<Line>>, b: seq<Line>)
    ensures Join(bs + [b]) == Join(bs) + b
  {
    if bs == [] {
      assert Join([b]) == b + Join([b][1..]);
      assert [] + [b] == [b];
    } else {
      JoinSnoc(bs[1..], b);
      assert (bs + [b])[1..] == bs[1..] + [b];
      Assoc(bs[0], Join(bs[1..]), b);
    }
  }

  lemma SectionSnoc(ts: seq<Tree>, t: Tree)
    requires Entry(t) && Entries(ts)
    ensures SectionLines(ts + [t]) == SectionLines(ts) + InlineLines(t)
  {
    assert Blocks(ts + [t]) == Blocks(ts) + [InlineLines(t)];
    JoinSnoc(Blocks(ts), InlineLines(t));
  }

  lemma SectionTextSnoc(ts: seq<Tree>, t: Tree)
    requires Entry(t) && Entries(ts)
    ensures YamlText.Text(SectionLines(ts + [t]))
         == YamlText.Text(SectionLines(ts)) + ("  -" + Inline(BlockLines(t, 4)))
  {
    InlineText(t);
    SectionSnoc(ts, t);
    TextAppend(SectionLines(ts), InlineLines(t));
  }

  lemma SectionNext(vs: seq<Value>, n: nat)
    requires n < |vs| && Entries(Meanings(vs)) && Entries(Meanings(vs)[..n])
    requires SectionText(vs, n) == YamlText.Text(SectionLines(Meanings(vs)[..n]))
    ensures Entries(Meanings(vs)[..n + 1])
    ensures SectionText(vs, n + 1) == YamlText.Text(SectionLines(Meanings(vs)[..n + 1]))
  {
    var (before, t) := (Meanings(vs)[..n], Meanings(vs)[n]);
    assert Entry(t) && t == Meaning(vs[n]);
    SectionTextSnoc(before, t);
    TakeNext(Meanings(vs), n);
    assert MapLines(vs[n], 4) == BlockLines(t, 4);
  }

  lemma {:induction false} SectionIsText(vs: seq<Value>, n: nat)
    requires n <= |vs| && Entries(Meanings(vs))
    ensures Entries(Meanings(vs)[..n])
    ensures SectionText(vs, n) == YamlText.Text(SectionLines(Meanings(vs)[..n]))
  {
    if n != 0 {
      SectionIsText(vs, n - 1);
      SectionNext(vs, n - 1);
    }
  }

  lemma {:induction false} RulesIsText(rules: seq<string>, n: nat)
    requires n <= |rules|
    ensures RulesText(rules, n) == YamlText.Text(RulesLines(rules[..n]))
  {
    if n != 0 {
      RulesIsText(rules, n - 1);
      var line := Line(2, "- " + Quoted(rules[n - 1]));
      assert RulesLines(rules[..n]) == RulesLines(rules[..n - 1]) + [line];
      TextAppend(RulesLines(rules[..n - 1]), [line]);
      TextOne(line);
      TwoSpaces(line.content);
      assert LineText(line) == "  - " + Quoted(rules[n - 1]) + "\n";
    }
  }

  lemma SectionsText(a: seq<Line>, b: seq<Line>, c: seq<Line>)
    ensures YamlText.Text(Sections(a, b, c))
         == "proxies:\n" + (YamlText.Text(a)
            + ("proxy-groups:\n" + (YamlText.Text(b) + ("rules:\n" + YamlText.Text(c)))))
  {
    var (p, g, r) := (Line(0, "proxies:"), Line(0, "proxy-groups:"), Line(0, "rules:"));
    TextCons(r, c);
    TextAppend(b, [r] + c);
    TextCons(g, b + ([r] + c));
    TextAppend(a, [g] + (b + ([r] + c)));
    TextCons(p, a + ([g] + (b + ([r] + c))));
    assert LineText(p) == "proxies:\n" && LineText(g) == "proxy-groups:\n" && LineText(r) == "rules:\n";
  }

  lemma WholeSection(vs: seq<Value>)
    requires Entries(Meanings(vs))
    ensures SectionText(vs, |vs|) == YamlText.Text(SectionLines(Meanings(vs)))
  {
    SectionIsText(vs, |vs|);
    TakeAll(Meanings(vs));
  }

  lemma RenderIsText(cfg: Config)
    requires Legible(DocumentOf(cfg))
    ensures Render(cfg) == YamlText.Text(DocumentLines(DocumentOf(cfg)))
  {
    var d := DocumentOf(cfg);
    WholeSection(cfg.proxies);
    WholeSection(cfg.groups);
    RulesIsText(cfg.rules, |cfg.rules|);
    TakeAll(cfg.rules);
    SectionsText(SectionLines(d.proxies), SectionLines(d.groups), RulesLines(d.rules));
  }

  // ---- the reader ----

  function ReadSection(lines: seq<Line>): (r: (seq<Tree>, seq<Line>))
    ensures |r.1| <= |lines|
    decreases |lines|
  {
    if lines == [] || lines[0].indent != 2 || !IsItem(lines[0]) then ([], lines)
    else
      var entry := ReadMap([Line(4, lines[0].content[2..])] + lines[1..], 4);
      var others := ReadSection(entry.1);
      ([Node(entry.0)] + others.0, others.1)
  }

  function ReadRules(lines: seq<Line>): seq<string> {
    if lines == [] || lines[0].indent != 2 || !IsItem(lines[0]) then []
    else
      var atom := AtomRead(lines[0].content[2..]);
      [if atom.Word? then atom.text else ""] + ReadRules(lines[1..])
  }

  function ReadDocument(text: string): Option<Document> {
    var lines := Split(text);
    if lines == [] || lines[0] != Line(0, "proxies:") then None
    else
      var proxies := ReadSection(lines[1..]);
      if proxies.1 == [] || proxies.1[0] != Line(0, "proxy-groups:") then None
      else
        var groups := ReadSection(proxies.1[1..]);
        if groups.1 == [] || groups.1[0] != Line(0, "rules:") then None
        else Some(Document(proxies.0, groups.0, ReadRules(groups.1[1..])))
  }

  lemma SectionCons(ts: seq<Tree>, rest: seq<Line>)
    requires Entries(ts) && ts != []
    ensures SectionLines(ts) + rest == InlineLines(ts[0]) + (SectionLines(ts[1..]) + rest)
  {
    assert Blocks(ts)[1..] == Blocks(ts[1..]);
    Assoc(InlineLines(ts[0]), SectionLines(ts[1..]), rest);
  }

  lemma {:induction false} SectionBack(ts: seq<Tree>, rest: seq<Line>)
    requires Entries(ts) && rest != [] && rest[0].indent == 0
    ensures ReadSection(SectionLines(ts) + rest) == (ts, rest)
  {
    if ts == [] {
      assert SectionLines(ts) == [] && [] + rest == rest;
    } else {
      SectionBack(ts[1..], rest);
      SectionCons(ts, rest);
      SectionStarts(ts[1..], rest);
      EntryOfSection(ts[0], SectionLines(ts[1..]) + rest);
      HeadTail(ts);
    }
  }

  lemma SectionStarts(ts: seq<Tree>, rest: seq<Line>)
    requires Entries(ts) && rest != [] && rest[0].indent == 0
    ensures Stops(SectionLines(ts) + rest, 4)
  {
    if ts != [] {
      assert SectionLines(ts)[0] == InlineLines(ts[0])[0];
    }
  }

  lemma EntryOfSection(t: Tree, more: seq<Line>)
    requires Entry(t) && Stops(more, 4)
    ensures var others := ReadSection(more);
            ReadSection(InlineLines(t) + more) == ([t] + others.0, others.1)
  {
    var (lines, block) := (InlineLines(t) + more, BlockLines(t, 4));
    BlockStarts(t, 4);
    BlockBack(t, 4, more);
    assert lines[0].content[2..] == block[0].content;
    assert [Line(4, block[0].content)] + lines[1..] == block + more;
  }

  lemma {:induction false} RulesBack(rules: seq<string>)
    ensures ReadRules(RulesLines(rules)) == rules
  {
    if rules != [] {
      RulesBack(rules[1..]);
      AtomBack(Word(rules[0]));
      assert RulesLines(rules)[0].content[2..] == Quoted(rules[0]);
      assert RulesLines(rules)[1..] == RulesLines(rules[1..]);
      assert rules == [rules[0]] + rules[1..];
    }
  }

  // ---- every line has its own ----

  ghost predicate AllClear(lines: seq<Line>) {
    forall line <- lines :: Clear(line)
  }

  lemma {:induction false} NodeClear(t: Tree, keys: seq<string>, n: nat)
    requires Readable(t) && t.Node? && forall k <- keys :: k in t.entries
    ensures AllClear(NodeLines(t, keys, n))
    decreases t, 0, |keys|
  {
    if keys != [] {
      NodeClear(t, keys[1..], n);
      EntryClear(keys[0], t.entries[keys[0]], n);
    }
  }

  lemma {:induction false} BlockClear(t: Tree, n: nat)
    requires Readable(t) && t.Node?
    ensures AllClear(BlockLines(t, n))
    decreases t, 1, 0
  {
    SortedIn(t.entries);
    NodeClear(t, SortedKeys(t.entries.Keys), n);
  }

  lemma {:induction false} EntryClear(key: string, t: Tree, n: nat)
    requires Readable(t) && PlainKey(key)
    ensures AllClear(EntryLines(key, t, n))
    decreases t, 2, 0
  {
    EntryStarts(key, t, n);
    if t.Node? {
      BlockClear(t, n + 2);
    } else if t.Items? {
      ItemsClear(t.items, n + 2);
    }
  }

  lemma {:induction false} ItemsClear(items: seq<Tree>, n: nat)
    requires forall i | 0 <= i < |items| :: !items[i].Items? && Readable(items[i])
    ensures AllClear(ItemsLines(items, n))
    decreases items, 0, 0
  {
    if items != [] {
      ItemsClear(items[1..], n);
      if items[0].Node? {
        BlockClear(items[0], n + 2);
      } else if items[0].Atomic? {
        AtomOneLine(items[0].atom);
      }
    }
  }

  lemma {:induction false} SectionClear(ts: seq<Tree>)
    requires Entries(ts)
    ensures AllClear(SectionLines(ts))
  {
    if ts != [] {
      SectionClear(ts[1..]);
      assert Blocks(ts)[1..] == Blocks(ts[1..]);
      BlockStarts(ts[0], 4);
      BlockClear(ts[0], 4);
    }
  }

  lemma RulesClear(rules: seq<string>)
    requires forall r <- rules :: OneLine(r)
    ensures AllClear(RulesLines(rules))
  {
    forall i | 0 <= i < |rules| ensures Clear(RulesLines(rules)[i]) { DoubledOneLine(rules[i]); }
  }

  lemma ClearAppend(a: seq<Line>, b: seq<Line>)
    requires AllClear(a) && AllClear(b)
    ensures AllClear(a + b)
  {
  }

  lemma SectionsClear(a: seq<Line>, b: seq<Line>, c: seq<Line>)
    requires AllClear(a) && AllClear(b) && AllClear(c)
    ensures AllClear(Sections(a, b, c))
  {
    var (p, g, r) := (Line(0, "proxies:"), Line(0, "proxy-groups:"), Line(0, "rules:"));
    ClearAppend([r], c);
    ClearAppend(b, [r] + c);
    ClearAppend([g], b + ([r] + c));
    ClearAppend(a, [g] + (b + ([r] + c)));
    ClearAppend([p], a + ([g] + (b + ([r] + c))));
  }

  lemma DocumentClear(d: Document)
    requires Legible(d)
    ensures AllClear(DocumentLines(d))
  {
    SectionClear(d.proxies);
    SectionClear(d.groups);
    RulesClear(d.rules);
    SectionsClear(SectionLines(d.proxies), SectionLines(d.groups), RulesLines(d.rules));
  }

  // ---- the printer has a left inverse ----

  /** What the reader makes of the printed text is what the configuration means. */
  lemma LeftInverse(cfg: Config)
    requires Legible(DocumentOf(cfg))
    ensures ReadDocument(Render(cfg)) == Some(DocumentOf(cfg))
  {
    var d := DocumentOf(cfg);
    RenderIsText(cfg);
    DocumentClear(d);
    SplitText(DocumentLines(d));
    var c := [Line(0, "rules:")] + RulesLines(d.rules);
    var b := [Line(0, "proxy-groups:")] + (SectionLines(d.groups) + c);
    SectionBack(d.proxies, b);
    SectionBack(d.groups, c);
    RulesBack(d.rules);
    assert DocumentLines(d) == [Line(0, "proxies:")] + (SectionLines(d.proxies) + b);
    assert DocumentLines(d)[1..] == SectionLines(d.proxies) + b;
    assert b[1..] == SectionLines(d.groups) + c;
    assert c[1..] == RulesLines(d.rules);
  }

  lemma RuleInPrint(rule: string)
    ensures RulesText([rule], 1) == "  - " + Quoted(rule) + "\n"
  {
    assert RulesText([rule], 0) == [];
  }

  lemma ProxyInPrint(key: string)
    ensures SectionText([Map(map[key := Leaf(Bool(true))])], 1) == "  -" + (" " + ((key + ": " + "true") + "\n"))
  {
    var v := Map(map[key := Leaf(Bool(true))]);
    OneEntryMap(key, Leaf(Bool(true)));
    OneKey(key, Atomic(Truth(true)), 4);
    OneLineInline(Line(4, key + ": " + "true"));
    assert SectionText([v], 0) == [];
  }

  lemma OneLineInline(line: Line)
    ensures Inline([line]) == " " + (line.content + "\n")
  {
    assert [line][1..] == [] && (line.content + "\n") + [] == line.content + "\n";
  }

  /** The headings, a proxy and a rule. */
  lemma FileInPrint(key: string, rule: string)
    ensures Render(Config([Map(map[key := Leaf(Bool(true))])], [], [rule]))
         == "proxies:\n" + (("  -" + (" " + ((key + ": " + "true") + "\n")))
            + ("proxy-groups:\n" + ([] + ("rules:\n" + ("  - " + Quoted(rule) + "\n")))))
  {
    ProxyInPrint(key);
    RuleInPrint(rule);
  }

  /** Every scalar of the configuration is read back at its place with its type, under the same keys. */
  lemma ReadBackShows(cfg: Config)
    requires Legible(DocumentOf(cfg))
    ensures ReadDocument(Render(cfg)).Some?
    ensures var d := ReadDocument(Render(cfg)).value;
            && |d.proxies| == |cfg.proxies| && |d.groups| == |cfg.groups|
            && (forall i | 0 <= i < |cfg.proxies| :: Shows(cfg.proxies[i], d.proxies[i]))
            && (forall i | 0 <= i < |cfg.groups| :: Shows(cfg.groups[i], d.groups[i]))
            && d.rules == cfg.rules
  {
    LeftInverse(cfg);
    forall i | 0 <= i < |cfg.proxies| ensures Shows(cfg.proxies[i], DocumentOf(cfg).proxies[i]) {
      MeaningShows(cfg.proxies[i]);
    }
    forall i | 0 <= i < |cfg.groups| ensures Shows(cfg.groups[i], DocumentOf(cfg).groups[i]) {
      MeaningShows(cfg.groups[i]);
    }
  }

  /** A configuration of plain keys and one-line strings whose proxies and groups are not empty is legible. */
  lemma PlainLegible(cfg: Config)
    requires forall v <- cfg.proxies + cfg.groups :: v.Map? && v.entries != map[] && Plain(v) && Shaped(v)
    requires forall r <- cfg.rules :: OneLine(r)
    ensures Legible(DocumentOf(cfg))
  {
    forall i | 0 <= i < |cfg.proxies| ensures Entry(Meaning(cfg.proxies[i])) {
      assert cfg.proxies[i] in cfg.proxies + cfg.groups;
      PlainReadable(cfg.proxies[i]);
    }
    forall i | 0 <= i < |cfg.groups| ensures Entry(Meaning(cfg.groups[i])) {
      assert cfg.groups[i] in cfg.proxies + cfg.groups;
      PlainReadable(cfg.groups[i]);
    }
  }

  /** Two configurations print the same text exactly when they mean the same. */
  lemma SameTextSameMeaning(a: Config, b: Config)
    requires Legible(DocumentOf(a)) && Legible(DocumentOf(b))
    ensures Render(a) == Render(b) <==> DocumentOf(a) == DocumentOf(b)
  {
    LeftInverse(a);
    LeftInverse(b);
    RenderIsText(a);
    RenderIsText(b);
  }

  /** A value whose Go types can be told from its meaning. */
  predicate Distinct(v: Value) {
    match v
    case Map(entries) => entries != map[] && forall k <- entries :: Distinct(entries[k])
    case Strings(items) => items != []
    case List(values) =>
      && (forall i | 0 <= i < |values| :: Distinct(values[i]))
      && (exists i :: 0 <= i < |values| && !(values[i].Leaf? && values[i].scalar.Text?))
    case Leaf(s) => !s.Nil? && !s.Other?
  }

  lemma {:induction false} MeaningInjective(v: Value, w: Value)
    requires Distinct(v) && Distinct(w) && Meaning(v) == Meaning(w)
    ensures v == w
  {
    if v.Map? && w.Map? {
      assert v.entries.Keys == Meaning(v).entries.Keys == w.entries.Keys;
      forall k <- v.entries ensures v.entries[k] == w.entries[k] {
        assert Meaning(v).entries[k] == Meaning(w).entries[k];
        MeaningInjective(v.entries[k], w.entries[k]);
      }
      assert v.entries == w.entries;
    } else if v.List? && w.List? {
      forall i | 0 <= i < |v.values| ensures v.values[i] == w.values[i] {
        assert Meaning(v).items[i] == Meaning(w).items[i];
        MeaningInjective(v.values[i], w.values[i]);
      }
    } else if v.Strings? && w.Strings? {
      forall i | 0 <= i < |v.items| ensures v.items[i] == w.items[i] {
        assert Meaning(v).items[i] == Meaning(w).items[i];
      }
    } else if v.Strings? && w.List? {
      StringsOrList(v, w);
    } else if v.List? && w.Strings? {
      StringsOrList(w, v);
    }
  }

  lemma StringsOrList(v: Value, w: Value)
    requires v.Strings? && w.List? && Distinct(v) && Distinct(w)
    ensures Meaning(v) != Meaning(w)
  {
    var i :| 0 <= i < |w.values| && !(w.values[i].Leaf? && w.values[i].scalar.Text?);
    assert Meaning(w).items[i] == Meaning(w.values[i]);
    assert Distinct(w.values[i]);
    assert i < |v.items| ==> Meaning(v).items[i] == Atomic(Word(v.items[i]));
  }

  /** Equal text means equal configuration. */
  lemma PrinterInjective(a: Config, b: Config)
    requires Legible(DocumentOf(a)) && Legible(DocumentOf(b))
    requires forall v <- a.proxies + a.groups + b.proxies + b.groups :: Distinct(v)
    requires Render(a) == Render(b)
    ensures a == b
  {
    SameTextSameMeaning(a, b);
    SameMeanings(a.proxies, b.proxies);
    SameMeanings(a.groups, b.groups);
  }

  lemma SameMeanings(v: seq<Value>, w: seq<Value>)
    requires (forall x <- v + w :: Distinct(x)) && Meanings(v) == Meanings(w)
    ensures v == w
  {
    assert |v| == |Meanings(v)| == |w|;
    forall i | 0 <= i < |v| ensures v[i] == w[i] {
      assert v[i] in v + w && w[i] in v + w;
      assert Meanings(v)[i] == Meanings(w)[i];
      MeaningInjective(v[i], w[i]);
    }
  }

  /** A configuration of one proxy with one entry. */
  function OneEntry(v: Value): Config {
    Config([Map(map["k" := v])], [], [])
  }

  ghost predicate PrintedTheSame(a: Config, b: Config) {
    a != b && Legible(DocumentOf(a)) && Legible(DocumentOf(b)) && Render(a) == Render(b)
  }

  lemma AlikeInside(v: Value, w: Value)
    requires Alike(v, w)
    ensures PrintedTheSame(OneEntry(v), OneEntry(w))
  {
    var (a, b) := (OneEntry(v), OneEntry(w));
    assert a.proxies[0].entries["k"] == v && b.proxies[0].entries["k"] == w;
    OneEntryMeans(v);
    OneEntryMeans(w);
    SameTextSameMeaning(a, b);
  }

  lemma OneEntryMeans(v: Value)
    requires Readable(Meaning(v))
    ensures DocumentOf(OneEntry(v)) == Document([Node(map["k" := Meaning(v)])], [], [])
    ensures Legible(DocumentOf(OneEntry(v)))
  {
    var (m, t) := (Map(map["k" := v]), Node(map["k" := Meaning(v)]));
    assert m.entries["k"] == v && t.entries["k"] == Meaning(v) && m.entries != map[];
    assert Meaning(m).entries == t.entries;
    assert forall k <- t.entries :: k == "k";
    assert Entry(t);
    assert Meanings([m]) == [t] && Meanings([]) == [];
  }

  /** Different values that mean the same, and can be read back. */
  predicate Alike(v: Value, w: Value) {
    v != w && Meaning(v) == Meaning(w) && Readable(Meaning(v))
  }

  lemma AlikePairs()
    ensures Alike(Leaf(Nil), Leaf(Text(""))) && Alike(Leaf(Other("1.5")), Leaf(Text("1.5")))
    ensures Alike(Strings(["a"]), List([Leaf(Text("a"))])) && Alike(Map(map[]), List([]))
  {
    assert Meaning(Strings(["a"])).items == Meaning(List([Leaf(Text("a"))])).items;
  }

  /**
   Without that, different configurations are printed alike: nil and the empty string, a list of strings given as
   either type, an empty map and an empty list, a value of another type and the string it prints as.
   */
  lemma PrintedAlike()
    ensures PrintedTheSame(OneEntry(Leaf(Nil)), OneEntry(Leaf(Text(""))))
    ensures PrintedTheSame(OneEntry(Strings(["a"])), OneEntry(List([Leaf(Text("a"))])))
    ensures PrintedTheSame(OneEntry(Map(map[])), OneEntry(List([])))
    ensures PrintedTheSame(OneEntry(Leaf(Other("1.5"))), OneEntry(Leaf(Text("1.5"))))
  {
    AlikePairs();
    forall v, w | Alike(v, w) ensures PrintedTheSame(OneEntry(v), OneEntry(w)) { AlikeInside(v, w); }
  }
}
