/**
 Compressed source mappings, after `AssemblyItem::computeSourceMapping`: one
 entry per item, where fields that did not change are empty and trailing ones
 are dropped. The decompression that the section "Source Mappings" of the
 Solidity documentation describes recovers every entry.
 */
module SourceMap {
  import opened Wrappers

  datatype JumpType = Ordinary | IntoFunction | OutOfFunction

  /** `start` and `end` are -1 where unknown. */
  datatype Item = Item(start: int, end: int, source: Option<string>, jumpType: JumpType, modifierDepth: nat)
  datatype Entry = Entry(start: int, length: int, source: int, jump: char, depth: int)

  const NO_ENTRY := Entry(-1, -1, -1, '\0', -1)

  /** Conversion to a 32-bit `int`. */
  function AsInt(n: nat): int {
    if n % 0x1_0000_0000 < 0x8000_0000 then n % 0x1_0000_0000 else n % 0x1_0000_0000 - 0x1_0000_0000
  }

  function EntryOf(item: Item, indices: map<string, nat>): Entry {
    Entry(
      item.start,
      if item.start != -1 && item.end != -1 then item.end - item.start else -1,
      if item.source.Some? && item.source.value in indices then AsInt(indices[item.source.value]) else -1,
      match item.jumpType { case IntoFunction => 'i' case OutOfFunction => 'o' case Ordinary => '-' },
      AsInt(item.modifierDepth))
  }

  // ---------------------------------------------------------------- numbers as text

  function Digits(n: nat): (s: string)
    ensures s != "" && forall i :: 0 <= i < |s| ==> '0' <= s[i] <= '9'
    ensures |s| > 1 ==> s[0] != '0'
  {
    if n < 10 then ['0' + n as char] else Digits(n / 10) + ['0' + (n % 10) as char]
  }

  function Decimal(n: int): (s: string)
    ensures s != "" && forall i :: 0 <= i < |s| ==> s[i] == '-' || '0' <= s[i] <= '9'
  {
    if n < 0 then "-" + Digits(-n) else Digits(n)
  }

  function DigitValue(c: char): nat {
    if c >= '0' then c as int - '0' as int else 0
  }

  function ParseDigits(s: string): nat {
    if s == "" then 0
    else 10 * ParseDigits(s[..|s| - 1]) + DigitValue(s[|s| - 1])
  }

  function ParseDecimal(s: string): int {
    if s != "" && s[0] == '-' then 0 - ParseDigits(s[1..]) else ParseDigits(s)
  }

  lemma {:induction false} DigitsParse(n: nat)
    ensures ParseDigits(Digits(n)) == n
  {
    if n < 10 {
      assert Digits(n)[..0] == "";
    } else {
      DigitsParse(n / 10);
      assert Digits(n)[..|Digits(n)| - 1] == Digits(n / 10);
    }
  }

  lemma DecimalParse(n: int)
    ensures ParseDecimal(Decimal(n)) == n
  {
    if n < 0 {
      DigitsParse(-n);
      assert Decimal(n)[1..] == Digits(-n);
    } else {
      DigitsParse(n);
      assert Decimal(n)[0] >= '0';
    }
  }

  // ---------------------------------------------------------------- separators

  function Split(s: string, c: char): (parts: seq<string>)
    ensures parts != []
  {
    if s == "" then [""]
    else
      Prepend(s[0], c, Split(s[1..], c))
  }

  function Prepend(x: char, c: char, parts: seq<string>): (r: seq<string>)
    requires parts != []
    ensures r != []
  {
    if x == c then [""] + parts else [[x] + parts[0]] + parts[1..]
  }

  lemma PrependConcat(x: char, c: char, a: seq<string>, b: seq<string>)
    requires a != []
    ensures Prepend(x, c, a + b) == Prepend(x, c, a) + b
  {
    assert (a + b)[1..] == a[1..] + b;
  }

  function Join(parts: seq<string>, c: char): string {
    if parts == [] then ""
    else if |parts| == 1 then parts[0]
    else Join(parts[..|parts| - 1], c) + [c] + parts[|parts| - 1]
  }

  predicate Free(s: string, c: char) {
    forall i :: 0 <= i < |s| ==> s[i] != c
  }

  lemma {:induction false} SplitFree(s: string, c: char)
    requires Free(s, c)
    ensures Split(s, c) == [s]
  {
    if s != "" {
      SplitFree(s[1..], c);
      assert s == [s[0]] + s[1..];
    }
  }

  lemma SplitStarts(c: char, t: string)
    ensures Split([c] + t, c) == [""] + Split(t, c)
  {
    assert ([c] + t)[1..] == t;
  }

  lemma {:induction false} SplitConcat(s: string, c: char, t: string)
    ensures Split(s + [c] + t, c) == Split(s, c) + Split(t, c)
  {
    hide Prepend;
    var all := s + [c] + t;
    if s == "" {
      SplitStarts(c, t);
      assert all == [c] + t;
    } else {
      SplitConcat(s[1..], c, t);
      assert all[1..] == s[1..] + [c] + t;
      PrependConcat(s[0], c, Split(s[1..], c), Split(t, c));
    }
  }

  /** Splitting undoes joining. */
  lemma {:induction false} SplitJoin(parts: seq<string>, c: char)
    requires parts != [] && forall i :: 0 <= i < |parts| ==> Free(parts[i], c)
    ensures Split(Join(parts, c), c) == parts
  {
    hide Split;
    var last := parts[|parts| - 1];
    SplitFree(last, c);
    if |parts| == 1 {
      assert parts == [last];
    } else {
      var init := parts[..|parts| - 1];
      SplitJoin(init, c);
      SplitConcat(Join(init, c), c, last);
      assert parts == init + [last];
    }
  }

  // ---------------------------------------------------------------- one entry

  /** The fields of an entry; empty where they repeat the previous entry's. */
  function Fields(p: Entry, e: Entry): (fs: seq<string>)
    ensures |fs| == 5
  {
    [ if e.start != p.start then Decimal(e.start) else "",
      if e.length != p.length then Decimal(e.length) else "",
      if e.source != p.source then Decimal(e.source) else "",
      if e.jump != p.jump then [e.jump] else "",
      if e.depth != p.depth then Decimal(e.depth) else "" ]
  }

  /** How many fields are written. */
  function Components(p: Entry, e: Entry): (n: nat)
    ensures n <= 5
  {
    if e.depth != p.depth then 5
    else if e.jump != p.jump then 4
    else if e.source != p.source then 3
    else if e.length != p.length then 2
    else if e.start != p.start then 1
    else 0
  }

  function Delta(p: Entry, e: Entry): string {
    Join(Fields(p, e)[..Components(p, e)], ':')
  }

  /** Decompression of one entry: empty and missing fields are those of the previous entry. */
  function Update(p: Entry, fs: seq<string>): Entry {
    Entry(
      if |fs| > 0 && fs[0] != "" then ParseDecimal(fs[0]) else p.start,
      if |fs| > 1 && fs[1] != "" then ParseDecimal(fs[1]) else p.length,
      if |fs| > 2 && fs[2] != "" then ParseDecimal(fs[2]) else p.source,
      if |fs| > 3 && fs[3] != "" then fs[3][0] else p.jump,
      if |fs| > 4 && fs[4] != "" then ParseDecimal(fs[4]) else p.depth)
  }

  predicate JumpChar(c: char) {
    c == '-' || c == 'i' || c == 'o'
  }

  lemma UpdateFields(p: Entry, e: Entry)
    ensures Update(p, Fields(p, e)[..Components(p, e)]) == e
  {
    hide Decimal, ParseDecimal;
    DecimalParse(e.start);
    DecimalParse(e.length);
    DecimalParse(e.source);
    DecimalParse(e.depth);
  }

  lemma FieldsFree(p: Entry, e: Entry, i: nat, c: char)
    requires i < 5 && JumpChar(e.jump) && (c == ':' || c == ';')
    ensures Free(Fields(p, e)[i], c)
  {
    hide Decimal;
  }

  lemma DeltaUpdates(p: Entry, e: Entry)
    requires JumpChar(e.jump)
    ensures Update(p, Split(Delta(p, e), ':')) == e
  {
    hide Fields, Split, Update, Free;
    UpdateFields(p, e);
    forall i | 0 <= i < 5 ensures Free(Fields(p, e)[i], ':') {
      FieldsFree(p, e, i, ':');
    }
    if Components(p, e) > 0 {
      SplitJoin(Fields(p, e)[..Components(p, e)], ':');
    } else {
      EmptyUpdate(p);
      assert Fields(p, e)[..0] == [];
    }
  }

  lemma EmptyUpdate(p: Entry)
    ensures Update(p, Split("", ':')) == p == Update(p, [])
  {
  }

  lemma {:induction false} JoinFree(parts: seq<string>, c: char, d: char)
    requires c != d && forall i :: 0 <= i < |parts| ==> Free(parts[i], d)
    ensures Free(Join(parts, c), d)
  {
    if |parts| > 1 {
      JoinFree(parts[..|parts| - 1], c, d);
    }
  }

  lemma DeltaFree(p: Entry, e: Entry)
    requires JumpChar(e.jump)
    ensures Free(Delta(p, e), ';')
  {
    hide Fields, Free;
    forall i | 0 <= i < 5 ensures Free(Fields(p, e)[i], ';') {
      FieldsFree(p, e, i, ';');
    }
    JoinFree(Fields(p, e)[..Components(p, e)], ':', ';');
  }

  /** The first entry always has a jump field, so it is never empty. */
  lemma FirstNotEmpty(e: Entry)
    requires JumpChar(e.jump)
    ensures Delta(NO_ENTRY, e) != ""
  {
    hide Decimal;
    var parts := Fields(NO_ENTRY, e)[..Components(NO_ENTRY, e)];
    assert |parts| >= 4;
  }

  // ---------------------------------------------------------------- all entries

  function Previous(es: seq<Entry>, i: nat): Entry
    requires i <= |es|
  {
    if i == 0 then NO_ENTRY else es[i - 1]
  }

  function Deltas(es: seq<Entry>): (ds: seq<string>)
    ensures |ds| == |es|
  {
    seq(|es|, i requires 0 <= i < |es| => Delta(Previous(es, i), es[i]))
  }

  function UpdateAll(parts: seq<string>): (es: seq<Entry>)
    ensures |es| == |parts|
  {
    if parts == [] then []
    else
      var init := UpdateAll(parts[..|parts| - 1]);
      init + [Update(Previous(init, |init|), Split(parts[|parts| - 1], ':'))]
  }

  /** Decompression of a mapping. */
  function Decompress(s: string): seq<Entry> {
    if s == "" then [] else UpdateAll(Split(s, ';'))
  }

  predicate Proper(es: seq<Entry>) {
    forall i :: 0 <= i < |es| ==> JumpChar(es[i].jump)
  }

  lemma {:induction false} UpdateAllDeltas(es: seq<Entry>)
    requires Proper(es)
    ensures UpdateAll(Deltas(es)) == es
  {
    hide Split, Update, Delta;
    if es != [] {
      var n := |es| - 1;
      UpdateAllDeltas(es[..n]);
      assert Deltas(es)[..n] == Deltas(es[..n]);
      DeltaUpdates(Previous(es, n), es[n]);
      assert es == es[..n] + [es[n]];
    }
  }

  lemma {:induction false} JoinNotEmpty(parts: seq<string>, c: char)
    requires parts != [] && parts[0] != ""
    ensures Join(parts, c) != ""
  {
  }

  /** Decompressing the joined deltas gives the entries back. */
  lemma MappingDecompresses(es: seq<Entry>)
    requires Proper(es)
    ensures Decompress(Join(Deltas(es), ';')) == es
    ensures es != [] ==> Join(Deltas(es), ';') != ""
  {
    hide Delta, UpdateAll, Split, Join, Free;
    if es != [] {
      FirstNotEmpty(es[0]);
      JoinNotEmpty(Deltas(es), ';');
      forall i | 0 <= i < |es| ensures Free(Deltas(es)[i], ';') {
        DeltaFree(Previous(es, i), es[i]);
      }
      SplitJoin(Deltas(es), ';');
      UpdateAllDeltas(es);
    } else {
      JoinNothing(Deltas(es), ';');
    }
  }

  lemma JoinNothing(parts: seq<string>, c: char)
    requires parts == []
    ensures Join(parts, c) == ""
  {
  }

  function EntriesOf(items: seq<Item>, indices: map<string, nat>): (es: seq<Entry>)
    ensures |es| == |items| && Proper(es)
  {
    seq(|items|, i requires 0 <= i < |items| => EntryOf(items[i], indices))
  }

  method CountComponents(p: Entry, e: Entry) returns (components: nat)
    ensures components == Components(p, e)
  {
    components := 5;
    if e.depth == p.depth {
      components := components - 1;
      if e.jump == p.jump {
        components := components - 1;
        if e.source == p.source {
          components := components - 1;
          if e.length == p.length {
            components := components - 1;
            if e.start == p.start {
              components := components - 1;
            }
          }
        }
      }
    }
  }

  method AppendField(text: string, changed: bool, value: string) returns (r: string)
    ensures r == text + (if changed then value else "")
  {
    r := text;
    if changed {
      r := r + value;
    }
  }

  /** The text of one entry, field by field. */
  method EmitEntry(p: Entry, e: Entry) returns (text: string)
    ensures text == Delta(p, e)
  {
    hide Join, Fields;
    var components := CountComponents(p, e);
    ghost var fs := Fields(p, e);
    FieldTexts(p, e);
    JoinFields(fs);
    text := "";
    if components > 0 {
      text := AppendField(text, e.start != p.start, Decimal(e.start));
      if components > 1 {
        text := AppendField(text + ":", e.length != p.length, Decimal(e.length));
        if components > 2 {
          text := AppendField(text + ":", e.source != p.source, Decimal(e.source));
          if components > 3 {
            text := AppendField(text + ":", e.jump != p.jump, [e.jump]);
            if components > 4 {
              text := AppendField(text + ":", e.depth != p.depth, Decimal(e.depth));
            }
          }
        }
      }
    }
  }

  lemma FieldTexts(p: Entry, e: Entry)
    ensures var fs := Fields(p, e);
            fs[0] == (if e.start != p.start then Decimal(e.start) else "") &&
            fs[1] == (if e.length != p.length then Decimal(e.length) else "") &&
            fs[2] == (if e.source != p.source then Decimal(e.source) else "") &&
            fs[3] == (if e.jump != p.jump then [e.jump] else "") &&
            fs[4] == (if e.depth != p.depth then Decimal(e.depth) else "")
  {
  }

  lemma JoinFields(fs: seq<string>)
    requires |fs| == 5
    ensures Join(fs[..0], ':') == "" && Join(fs[..1], ':') == "" + fs[0]
    ensures Join(fs[..2], ':') == Join(fs[..1], ':') + ":" + fs[1]
    ensures Join(fs[..3], ':') == Join(fs[..2], ':') + ":" + fs[2]
    ensures Join(fs[..4], ':') == Join(fs[..3], ':') + ":" + fs[3]
    ensures Join(fs[..5], ':') == Join(fs[..4], ':') + ":" + fs[4]
  {
    hide Join;
    JoinNothing(fs[..0], ':');
    JoinNext(fs, 0);
    JoinNext(fs, 1);
    JoinNext(fs, 2);
    JoinNext(fs, 3);
    JoinNext(fs, 4);
  }

  lemma JoinNext(parts: seq<string>, i: nat)
    requires i < |parts|
    ensures Join(parts[..i + 1], ':') == if i == 0 then parts[0] else Join(parts[..i], ':') + ":" + parts[i]
  {
    assert parts[..i + 1][..i] == parts[..i];
  }

  /** What an entry says about its item. */
  ghost predicate Describes(e: Entry, item: Item, indices: map<string, nat>) {
    && e.start == item.start
    && (if item.start == -1 || item.end == -1 then e.length == -1 else e.start + e.length == item.end)
    && (e.jump == 'i' <==> item.jumpType == IntoFunction)
    && (e.jump == 'o' <==> item.jumpType == OutOfFunction)
    && (e.jump == '-' <==> item.jumpType == Ordinary)
    && (if item.source.Some? && item.source.value in indices then SameInt(e.source, indices[item.source.value])
        else e.source == -1)
    && SameInt(e.depth, item.modifierDepth)
  }

  /** `i` is the 32-bit `int` with the bits of `n`. */
  ghost predicate SameInt(i: int, n: nat) {
    -0x8000_0000 <= i < 0x8000_0000 && (n - i) % 0x1_0000_0000 == 0
  }

  lemma EntryDescribes(item: Item, indices: map<string, nat>)
    ensures Describes(EntryOf(item, indices), item, indices)
  {
  }

  /** The fields `fs` hold what changed and nothing else: trailing fields are dropped, no
      field but the only one of an unchanged entry ends the text empty. */
  ghost predicate Compressed(fs: seq<string>, p: Entry, e: Entry) {
    && 1 <= |fs| <= 5
    && (fs != [""] ==> fs[|fs| - 1] != "")
    && (|fs| > 0 && fs[0] != "" <==> e.start != p.start)
    && (|fs| > 1 && fs[1] != "" <==> e.length != p.length)
    && (|fs| > 2 && fs[2] != "" <==> e.source != p.source)
    && (|fs| > 3 && fs[3] != "" <==> e.jump != p.jump)
    && (|fs| > 4 && fs[4] != "" <==> e.depth != p.depth)
  }

  lemma FieldsCompressed(p: Entry, e: Entry)
    ensures var fs := Fields(p, e)[..Components(p, e)];
            Compressed(if fs == [] then [""] else fs, p, e)
  {
    hide Decimal;
  }

  lemma DeltaCompressed(p: Entry, e: Entry)
    requires JumpChar(e.jump)
    ensures Compressed(Split(Delta(p, e), ':'), p, e)
  {
    hide Fields, Split, Compressed, Free;
    FieldsCompressed(p, e);
    forall i | 0 <= i < 5 ensures Free(Fields(p, e)[i], ':') {
      FieldsFree(p, e, i, ':');
    }
    if Components(p, e) > 0 {
      SplitJoin(Fields(p, e)[..Components(p, e)], ':');
    } else {
      SplitNothing(':');
      assert Fields(p, e)[..0] == [];
    }
  }

  lemma SplitNothing(c: char)
    ensures Split("", c) == [""]
  {
  }

  lemma PartsCompressed(es: seq<Entry>, ret: string, i: nat)
    requires Proper(es) && i < |es| && ret == Join(Deltas(es), ';')
    ensures Split(ret, ';') == Deltas(es)
    ensures Compressed(Split(Split(ret, ';')[i], ':'), Previous(es, i), es[i])
  {
    hide Delta, Split, Join, Free, Compressed;
    forall i | 0 <= i < |es| ensures Free(Deltas(es)[i], ';') {
      DeltaFree(Previous(es, i), es[i]);
    }
    SplitJoin(Deltas(es), ';');
    DeltaCompressed(Previous(es, i), es[i]);
  }

  /** `computeSourceMapping`: one entry for each item, which says what is known of the item;
      only what changed is written, and nothing is lost. */
  method ComputeSourceMapping(items: seq<Item>, indices: map<string, nat>) returns (ret: string)
    ensures ret == Join(Deltas(EntriesOf(items, indices)), ';')
    ensures |Decompress(ret)| == |items| && Decompress(ret) == EntriesOf(items, indices)
    ensures forall i :: 0 <= i < |items| ==> Describes(Decompress(ret)[i], items[i], indices)
    ensures items == [] <==> ret == ""
    ensures items != [] ==> |Split(ret, ';')| == |items|
    ensures forall i :: 0 <= i < |items| && |Split(ret, ';')| == |items| ==>
              Compressed(Split(Split(ret, ';')[i], ':'), Previous(Decompress(ret), i), Decompress(ret)[i])
  {
    hide Delta, Decompress, Join, EntryOf, Describes, Split, Compressed;
    ghost var es := EntriesOf(items, indices);
    ret := "";
    var previous, i := NO_ENTRY, 0;
    JoinNothing(Deltas(es[..0]), ';');
    while i < |items|
      invariant 0 <= i <= |items| && previous == Previous(es, i)
      invariant ret == Join(Deltas(es[..i]), ';')
    {
      MappingDecompresses(es[..i]);
      if ret != "" {
        ret := ret + ";";
      }
      var e := EntryOf(items[i], indices);
      var text := EmitEntry(previous, e);
      JoinDeltas(es, i);
      ret := ret + text;
      previous := e;
      i := i + 1;
    }
    assert es[..i] == es;
    MappingDecompresses(es);
    forall i | 0 <= i < |items|
      ensures Describes(es[i], items[i], indices) && Split(ret, ';') == Deltas(es)
      ensures Compressed(Split(Split(ret, ';')[i], ':'), Previous(es, i), es[i])
    {
      EntryDescribes(items[i], indices);
      PartsCompressed(es, ret, i);
    }
    if items != [] {
      PartsCompressed(es, ret, 0);
    }
  }

  lemma JoinDeltas(es: seq<Entry>, i: nat)
    requires i < |es|
    ensures Join(Deltas(es[..i + 1]), ';') ==
      (if i == 0 then "" else Join(Deltas(es[..i]), ';') + ";") + Delta(Previous(es, i), es[i])
  {
    hide Delta;
    var ds := Deltas(es[..i + 1]);
    assert ds[..i] == Deltas(es[..i]);
    assert ds[i] == Delta(Previous(es, i), es[i]);
  }

  // ---------------------------------------------------------------- the documented example

  const MAPPED: seq<Item> := [
    Item(1, 3, Some("b"), Ordinary, 0), Item(1, 10, Some("b"), Ordinary, 0), Item(2, 3, Some("c"), IntoFunction, 0),
    Item(2, 3, Some("c"), OutOfFunction, 12), Item(2, 3, Some("c"), OutOfFunction, 12), Item(-1, -1, None, Ordinary, 0)]

  const ENTRIES: seq<Entry> := [
    Entry(1, 2, 1, '-', 0), Entry(1, 9, 1, '-', 0), Entry(2, 1, 2, 'i', 0),
    Entry(2, 1, 2, 'o', 12), Entry(2, 1, 2, 'o', 12), Entry(-1, -1, -1, '-', 0)]

  lemma MappedEntries(i: nat)
    requires i < 6
    ensures EntryOf(MAPPED[i], map["b" := 1, "c" := 2]) == ENTRIES[i]
  {
    assert i == 0 || i == 1 || i == 2 || i == 3 || i == 4 || i == 5;
  }

  lemma DecimalTexts()
    ensures Decimal(0) == "0" && Decimal(1) == "1" && Decimal(2) == "2" && Decimal(9) == "9"
    ensures Decimal(12) == "12" && Decimal(-1) == "-1"
  {
    assert Digits(1) == "1";
    assert Digits(12) == Digits(1) + "2";
  }

  lemma ExampleFields()
    ensures Fields(NO_ENTRY, ENTRIES[0]) == ["1", "2", "1", "-", "0"]
    ensures Fields(ENTRIES[0], ENTRIES[1]) == ["", "9", "", "", ""]
    ensures Fields(ENTRIES[1], ENTRIES[2]) == ["2", "1", "2", "i", ""]
    ensures Fields(ENTRIES[2], ENTRIES[3]) == ["", "", "", "o", "12"]
    ensures Fields(ENTRIES[4], ENTRIES[5]) == ["-1", "-1", "-1", "-", "0"]
  {
    hide Decimal;
    DecimalTexts();
  }

  lemma ExampleDeltas()
    ensures Delta(NO_ENTRY, ENTRIES[0]) == "1:2:1:-:0" && Delta(ENTRIES[0], ENTRIES[1]) == ":9"
    ensures Delta(ENTRIES[1], ENTRIES[2]) == "2:1:2:i" && Delta(ENTRIES[2], ENTRIES[3]) == ":::o:12"
    ensures Delta(ENTRIES[3], ENTRIES[4]) == "" && Delta(ENTRIES[4], ENTRIES[5]) == "-1:-1:-1:-:0"
  {
    hide Fields, Join;
    ExampleFields();
    JoinFields(Fields(NO_ENTRY, ENTRIES[0]));
    JoinFields(Fields(ENTRIES[0], ENTRIES[1]));
    JoinFields(Fields(ENTRIES[1], ENTRIES[2]));
    JoinFields(Fields(ENTRIES[2], ENTRIES[3]));
    JoinFields(Fields(ENTRIES[3], ENTRIES[4]));
    JoinFields(Fields(ENTRIES[4], ENTRIES[5]));
  }

  lemma ExampleEntries()
    ensures EntriesOf(MAPPED, map["b" := 1, "c" := 2]) == ENTRIES
  {
    hide EntryOf;
    MappedEntries(0);
    MappedEntries(1);
    MappedEntries(2);
    MappedEntries(3);
    MappedEntries(4);
    MappedEntries(5);
  }

  lemma JoinedExample(es: seq<Entry>)
    requires |es| == 6 && es == ENTRIES
    ensures Join(Deltas(es), ';') == "1:2:1:-:0;:9;2:1:2:i;:::o:12;;-1:-1:-1:-:0"
  {
    hide Delta, Join, ENTRIES;
    ExampleDeltas();
    JoinNothing(Deltas(es[..0]), ';');
    JoinDeltas(es, 0);
    JoinDeltas(es, 1);
    JoinDeltas(es, 2);
    JoinDeltas(es, 3);
    JoinDeltas(es, 4);
    JoinDeltas(es, 5);
    assert es[..6] == es;
  }

  /** The mapping of the items above. */
  lemma ExampleMapping()
    ensures Join(Deltas(EntriesOf(MAPPED, map["b" := 1, "c" := 2])), ';') ==
            "1:2:1:-:0;:9;2:1:2:i;:::o:12;;-1:-1:-1:-:0"
  {
    ExampleEntries();
    JoinedExample(ENTRIES);
  }
}
