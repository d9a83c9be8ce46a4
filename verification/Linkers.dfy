/**
 The two linkers: `LinkerObject::link` on bytes, and the link mode of the
 command line on the hexadecimal text that `LinkerObject::toHex` printed.
 Names of libraries are hashed by an unspecified function.
 */
module Linkers {
  import opened Wrappers
  import opened Bytes
  import AssemblyModel
  import AssemblyPlacement

  type Address = s: seq<Byte> | |s| == 21 witness seq(21, _ => 0)
  type Digest = s: seq<Byte> | |s| == 32 witness seq(32, _ => 0)

  /** Code with the positions of the 21-byte windows that hold library addresses. */
  datatype Linkable = Linkable(code: seq<Byte>, refs: map<nat, string>)

  // ---------------------------------------------------------------- hexadecimal text

  const DIGITS := "0123456789abcdef"

  function HexDigit(b: Byte, low: bool): (c: char)
    ensures c != '_'
  {
    if low then DIGITS[b % 16] else DIGITS[b / 16]
  }

  function Hex(bs: seq<Byte>): (s: string)
    ensures |s| == 2 * |bs| && forall i :: 0 <= i < |s| ==> s[i] == HexDigit(bs[i / 2], i % 2 == 1)
  {
    seq(2 * |bs|, i requires 0 <= i < 2 * |bs| => HexDigit(bs[i / 2], i % 2 == 1))
  }

  /** The high half of a byte comes first. */
  lemma HexExample()
    ensures Hex([0x01, 0x23, 0x45, 0x67, 0x89, 0xab, 0xcd, 0xef]) == "0123456789abcdef"
  {
  }

  /** Two digits determine the byte. */
  lemma HexDigitsInjective(a: Byte, b: Byte)
    requires HexDigit(a, false) == HexDigit(b, false) && HexDigit(a, true) == HexDigit(b, true)
    ensures a == b
  {
    DigitsInjective(a / 16, b / 16);
    DigitsInjective(a % 16, b % 16);
  }

  lemma DigitsInjective(x: nat, y: nat)
    requires x < 16 && y < 16 && DIGITS[x] == DIGITS[y]
    ensures x == y
  {
    assert forall i, j :: 0 <= i < j < 16 ==> DIGITS[i] != DIGITS[j];
  }

  // ---------------------------------------------------------------- names and placeholders

  /** `libraryPlaceholder` with its frame of underscores. */
  function Placeholder(hash: string -> Digest, name: string): (s: string)
    ensures |s| == 42 && forall i :: 0 <= i < 42 && (i < 2 || i >= 38) ==> s[i] == '_'
  {
    "__" + ("$" + Hex(hash(name))[..34] + "$") + "____"
  }

  /** The older form: the cropped or padded name. */
  function LegacyPlaceholder(name: string): (s: string)
    ensures |s| == 42
  {
    "__" + seq(36, i requires 0 <= i < 36 => if i < |name| then name[i] else '_') + "____"
  }

  function FindColon(name: string): (i: nat)
    ensures i <= |name| && (i < |name| ==> name[i] == ':') && forall j :: 0 <= j < i ==> name[j] != ':'
  {
    if name == "" || name[0] == ':' then 0 else 1 + FindColon(name[1..])
  }

  /** `matchLibrary`. */
  function MatchLibrary(name: string, libraries: map<string, Address>): Option<Address> {
    if name in libraries then Some(libraries[name])
    else
      var colon := FindColon(name);
      if colon == |name| then None
      else if name[colon + 1..] in libraries then Some(libraries[name[colon + 1..]])
      else None
  }

  // ---------------------------------------------------------------- windows

  predicate Inside(k: nat, i: nat) {
    k <= i < k + 21
  }

  /** The windows lie in the code and do not overlap. */
  ghost predicate Apart(o: Linkable) {
    (forall k <- o.refs :: k + 21 <= |o.code|) &&
    (forall j <- o.refs, k <- o.refs :: j < k ==> j + 21 <= k)
  }

  /** The window that holds byte `i`. */
  ghost function At(refs: map<nat, string>, i: nat): (k: Option<nat>)
    ensures k.Some? ==> k.value in refs && Inside(k.value, i)
    ensures k.None? ==> forall j <- refs :: !Inside(j, i)
  {
    if exists k :: k in refs && Inside(k, i) then
      var k :| k in refs && Inside(k, i);
      Some(k)
    else None
  }

  lemma AtUnique(o: Linkable, k: nat, i: nat)
    requires Apart(o) && k in o.refs && Inside(k, i)
    ensures At(o.refs, i) == Some(k)
  {
  }

  // ---------------------------------------------------------------- toHex

  ghost function TextChar(hash: string -> Digest, o: Linkable, i: nat): char
    requires i < 2 * |o.code|
  {
    match At(o.refs, i / 2)
    case Some(k) => Placeholder(hash, o.refs[k])[i - 2 * k]
    case None => Hex(o.code)[i]
  }

  /** The text of an object: placeholders in the windows, code elsewhere. */
  ghost function Text(hash: string -> Digest, o: Linkable): (s: string)
    ensures |s| == 2 * |o.code| && forall i :: 0 <= i < |s| ==> s[i] == TextChar(hash, o, i)
  {
    seq(2 * |o.code|, i requires 0 <= i < 2 * |o.code| => TextChar(hash, o, i))
  }

  /** `toHex`. */
  method ToHex(hash: string -> Digest, o: Linkable) returns (hex: string)
    requires Apart(o)
    ensures hex == Text(hash, o)
  {
    hide Placeholder, At;
    hex := Hex(o.code);
    var todo := o.refs.Keys;
    while todo != {}
      invariant todo <= o.refs.Keys && |hex| == 2 * |o.code|
      invariant forall i :: 0 <= i < |hex| ==>
        hex[i] == if At(o.refs, i / 2).Some? &&
            At(o.refs, i / 2).value !in todo then TextChar(hash, o, i) else Hex(o.code)[i]
      decreases todo
    {
      var k :| k in todo;
      todo := todo - {k};
      ghost var before := hex;
      hex := WritePlaceholder(hex, 2 * k, Placeholder(hash, o.refs[k]));
      forall i | 0 <= i < |hex|
        ensures hex[i] == if At(o.refs, i / 2).Some? &&
          At(o.refs, i / 2).value !in todo then TextChar(hash, o, i) else Hex(o.code)[i]
      {
        if Inside(k, i / 2) {
          AtUnique(o, k, i / 2);
          assert hex[2 * k..2 * k + 42][i - 2 * k] == hex[i];
        } else {
          assert hex[i] == before[i];
        }
      }
    }
  }

  /** The underscores and the 36 characters between them. */
  method WritePlaceholder(text: string, pos: nat, placeholder: string) returns (hex: string)
    requires pos + 42 <= |text| && |placeholder| == 42
    requires forall i :: 0 <= i < 42 && (i < 2 || i >= 38) ==> placeholder[i] == '_'
    ensures |hex| == |text| && hex[pos..pos + 42] == placeholder
    ensures forall i :: 0 <= i < |hex| && !(pos <= i < pos + 42) ==> hex[i] == text[i]
  {
    hex := text[pos := '_'][pos + 1 := '_'][pos + 38 := '_'][pos + 39 := '_'][pos + 40 := '_'][pos + 41 := '_'];
    for i := 0 to 36
      invariant |hex| == |text|
      invariant forall j :: 0 <= j < |hex| && !(pos <= j < pos + 42) ==> hex[j] == text[j]
      invariant forall j :: 0 <= j < 42 && (j < 2 + i || j >= 38) ==> hex[pos + j] == placeholder[j]
    {
      hex := hex[pos + 2 + i := placeholder[2 + i]];
    }
  }

  // ---------------------------------------------------------------- link

  predicate Resolved(o: Linkable, libraries: map<string, Address>, k: nat)
    requires k in o.refs
  {
    MatchLibrary(o.refs[k], libraries).Some?
  }

  /** Byte `i` of the linked code: 20 of the 21 bytes of an address are copied. */
  ghost function LinkedByte(o: Linkable, libraries: map<string, Address>, i: nat): Byte
    requires i < |o.code|
  {
    match At(o.refs, i)
    case Some(k) => if Resolved(o, libraries, k) &&
        i < k + 20 then MatchLibrary(o.refs[k], libraries).value[i - k] else o.code[i]
    case None => o.code[i]
  }

  ghost function Linked(o: Linkable, libraries: map<string, Address>): (r: Linkable)
    ensures |r.code| == |o.code| && forall i :: 0 <= i < |o.code| ==> r.code[i] == LinkedByte(o, libraries, i)
    ensures r.refs == map k | k in o.refs && !Resolved(o, libraries, k) :: o.refs[k]
  {
    Linkable(seq(|o.code|, i requires 0 <= i < |o.code| => LinkedByte(o, libraries, i)),
             map k | k in o.refs && !Resolved(o, libraries, k) :: o.refs[k])
  }

  /** `LinkerObject::link`. */
  method Link(o: Linkable, libraries: map<string, Address>) returns (r: Linkable)
    requires Apart(o)
    ensures r == Linked(o, libraries)
  {
    hide MatchLibrary, At;
    var code := o.code;
    var remaining: map<nat, string> := map[];
    var todo := o.refs.Keys;
    while todo != {}
      invariant todo <= o.refs.Keys && |code| == |o.code|
      invariant forall i :: 0 <= i < |code| ==>
        code[i] == if At(o.refs, i).Some? &&
            At(o.refs, i).value !in todo then LinkedByte(o, libraries, i) else o.code[i]
      invariant remaining == map k | k in o.refs && k !in todo && !Resolved(o, libraries, k) :: o.refs[k]
      decreases todo
    {
      var k :| k in todo;
      todo := todo - {k};
      var address := MatchLibrary(o.refs[k], libraries);
      ghost var before := code;
      if address.Some? {
        code := code[..k] + address.value[..20] + code[k + 20..];
      } else {
        remaining := remaining[k := o.refs[k]];
      }
      forall i | 0 <= i < |code|
        ensures code[i] == if At(o.refs, i).Some? &&
          At(o.refs, i).value !in todo then LinkedByte(o, libraries, i) else o.code[i]
      {
        if Inside(k, i) {
          AtUnique(o, k, i);
        } else {
          assert code[i] == before[i];
        }
      }
    }
    r := Linkable(code, remaining);
  }

  // ---------------------------------------------------------------- the text linker

  /** Only the library of that name has the placeholder of `name`. */
  predicate Unambiguous(hash: string -> Digest, libraries: map<string, Address>, name: string) {
    forall m <- libraries ::
      Placeholder(hash, m) == Placeholder(hash, name) || LegacyPlaceholder(m) == Placeholder(hash, name) ==> m == name
  }

  /** The replacements cover exactly the given libraries. */
  predicate Covers(hash: string -> Digest, libraries: map<string, Address>, replacements: map<string, Address>,
      name: string) {
    (Placeholder(hash, name) in replacements <==> name in libraries) &&
    (name in libraries && Placeholder(hash, name) in replacements ==>
        replacements[Placeholder(hash, name)] == libraries[name])
  }

  /** The first loop of `CommandLineInterface::link`. */
  method Replacements(hash: string -> Digest, libraries: map<string, Address>)
    returns (replacements: map<string, Address>)
    ensures forall name :: Unambiguous(hash, libraries, name) ==> Covers(hash, libraries, replacements, name)
  {
    hide Placeholder, LegacyPlaceholder;
    replacements := map[];
    var todo := libraries.Keys;
    ghost var seen: map<string, Address> := map[];
    while todo != {}
      invariant todo <= libraries.Keys && seen == map m | m in libraries && m !in todo :: libraries[m]
      invariant forall name :: Unambiguous(hash, libraries, name) ==> Covers(hash, seen, replacements, name)
      decreases todo
    {
      var m :| m in todo;
      ghost var before, was := replacements, seen;
      todo := todo - {m};
      replacements := replacements[Placeholder(hash, m) := libraries[m]];
      replacements := replacements[LegacyPlaceholder(m) := libraries[m]];
      seen := seen[m := libraries[m]];
      forall name | Unambiguous(hash, libraries, name) ensures Covers(hash, seen, replacements, name) {
        assert Covers(hash, was, before, name);
      }
    }
    assert seen == libraries;
  }

  /** The second loop, as a function of the rest of the text; None where a
      reference is not valid. */
  function LinkText(text: string, replacements: map<string, Address>): Option<string>
    decreases |text|
  {
    if text == "" then Some("")
    else if text[0] != '_' then
      match LinkText(text[1..], replacements)
      case None => None
      case Some(rest) => Some([text[0]] + rest)
    else if |text| < 42 || text[1] != '_' || text[40] != '_' || text[41] != '_' then None
    else
      match LinkText(text[42..], replacements)
      case None => None
      case Some(rest) => Some((if text[..42] in replacements then Hex(replacements[text[..42]]) else text[..42]) + rest)
  }

  /** The text is linked up to `it` and still as it was from there on. */
  ghost predicate Scanned(text: string, replacements: map<string, Address>, r: string, it: nat) {
    it <= |r| == |text| && r[it..] == text[it..] &&
    match LinkText(text[it..], replacements)
    case None => LinkText(text, replacements) == None
    case Some(rest) => LinkText(text, replacements) == Some(r[..it] + rest)
  }

  lemma SkipStep(text: string, replacements: map<string, Address>, r: string, it: nat)
    requires Scanned(text, replacements, r, it) && it < |r| && r[it] != '_'
    ensures Scanned(text, replacements, r, it + 1)
  {
    var rest := text[it..];
    assert rest[0] == r[it..][0] == r[it] && rest[1..] == text[it + 1..];
    assert r[it + 1..] == r[it..][1..];
    assert r[..it + 1] == r[..it] + [r[it]];
    if LinkText(rest[1..], replacements).Some? {
      var tail := LinkText(rest[1..], replacements).value;
      assert r[..it] + ([r[it]] + tail) == r[..it + 1] + tail;
    }
  }

  predicate ValidReference(rest: string) {
    |rest| >= 42 && rest[1] == '_' && rest[40] == '_' && rest[41] == '_'
  }

  lemma ReferenceStep(text: string, replacements: map<string, Address>, r: string, it: nat, window: string)
    requires Scanned(text, replacements, r, it) && it < |r| && r[it] == '_' && ValidReference(r[it..])
    requires window == if r[it..it + 42] in replacements then Hex(replacements[r[it..it + 42]]) else r[it..it + 42]
    ensures Scanned(text, replacements, r[..it] + window + r[it + 42..], it + 42)
  {
    hide Hex;
    var rest, next := text[it..], r[..it] + window + r[it + 42..];
    assert rest == r[it..] && rest[0] == '_' && rest[..42] == r[it..it + 42] && rest[42..] == text[it + 42..];
    assert next[it + 42..] == r[it + 42..] == r[it..][42..] == rest[42..];
    assert next[..it + 42] == r[..it] + window;
    if LinkText(rest[42..], replacements).Some? {
      var tail := LinkText(rest[42..], replacements).value;
      assert r[..it] + (window + tail) == next[..it + 42] + tail;
    }
  }

  lemma ReferenceFails(text: string, replacements: map<string, Address>, r: string, it: nat)
    requires Scanned(text, replacements, r, it) && it < |r| && r[it] == '_' && !ValidReference(r[it..])
    ensures LinkText(text, replacements) == None
  {
    assert text[it..] == r[it..] && r[it..][0] == '_';
  }

  lemma ScanEnds(text: string, replacements: map<string, Address>, r: string)
    requires Scanned(text, replacements, r, |r|)
    ensures LinkText(text, replacements) == Some(r)
  {
    assert text[|r|..] == "" && r[..|r|] + "" == r;
  }

  /** The second loop of `CommandLineInterface::link` on one text. */
  method LinkTextInPlace(text: string, replacements: map<string, Address>) returns (ok: bool, r: string)
    ensures ok == LinkText(text, replacements).Some?
    ensures ok ==> r == LinkText(text, replacements).value
  {
    hide Hex, LinkText, Scanned;
    r := text;
    var it := 0;
    ScanStarts(text, replacements);
    while it < |r|
      invariant 0 <= it <= |r| && Scanned(text, replacements, r, it)
      decreases |r| - it
    {
      if r[it] != '_' {
        SkipStep(text, replacements, r, it);
        it := it + 1;
      } else {
        if |r| - it < 42 || r[it + 1] != '_' || r[it + 40] != '_' || r[it + 41] != '_' {
          ReferenceFails(text, replacements, r, it);
          return false, r;
        }
        var found := r[it..it + 42];
        if found in replacements {
          var hexStr := Hex(replacements[found]);
          ReferenceStep(text, replacements, r, it, hexStr);
          r := r[..it] + hexStr + r[it + 42..];
        } else {
          ReferenceStep(text, replacements, r, it, found);
          assert r == r[..it] + found + r[it + 42..];
        }
        it := it + 42;
      }
    }
    ScanEnds(text, replacements, r);
    ok := true;
  }

  lemma ScanStarts(text: string, replacements: map<string, Address>)
    ensures Scanned(text, replacements, text, 0)
  {
    assert text[0..] == text && text[..0] == "";
    if LinkText(text, replacements).Some? {
      assert "" + LinkText(text, replacements).value == LinkText(text, replacements).value;
    }
  }

  // ---------------------------------------------------------------- what the text linker does to an object's text

  /** The placeholder of every reference is its own. */
  ghost predicate OwnPlaceholders(hash: string -> Digest, o: Linkable, libraries: map<string, Address>) {
    forall k <- o.refs :: Unambiguous(hash, libraries, o.refs[k])
  }

  ghost predicate AllCovered(hash: string -> Digest, o: Linkable, libraries: map<string, Address>,
      replacements: map<string, Address>) {
    forall k <- o.refs :: Covers(hash, libraries, replacements, o.refs[k])
  }

  ghost function LinkedChar(hash: string -> Digest, o: Linkable, libraries: map<string, Address>, i: nat): char
    requires i < 2 * |o.code|
  {
    match At(o.refs, i / 2)
    case Some(k) =>
      if o.refs[k] in libraries then Hex(libraries[o.refs[k]])[i - 2 * k] else Placeholder(hash, o.refs[k])[i - 2 * k]
    case None => Hex(o.code)[i]
  }

  /** Placeholders of the given libraries replaced by whole addresses. */
  ghost function LinkedText(hash: string -> Digest, o: Linkable, libraries: map<string, Address>): (s: string)
    ensures |s| == 2 * |o.code| && forall i :: 0 <= i < |s| ==> s[i] == LinkedChar(hash, o, libraries, i)
  {
    seq(2 * |o.code|, i requires 0 <= i < 2 * |o.code| => LinkedChar(hash, o, libraries, i))
  }

  /** `p` is not in the middle of a window. */
  ghost predicate Between(o: Linkable, p: nat) {
    forall k <- o.refs :: p <= 2 * k || 2 * k + 42 <= p
  }

  /** Outside the windows both texts are the code's digits. */
  lemma OutsideChar(hash: string -> Digest, o: Linkable, libraries: map<string, Address>, p: nat)
    requires Apart(o) && Between(o, p) && p < 2 * |o.code| && !(p % 2 == 0 && p / 2 in o.refs)
    ensures Text(hash, o)[p] == LinkedText(hash, o, libraries)[p] != '_'
    ensures Between(o, p + 1)
  {
    hide Placeholder, Hex, Text, LinkedText;
    assert At(o.refs, p / 2).None?;
    assert Hex(o.code)[p] != '_';
  }

  /** A window holds its placeholder and is replaced as a whole. */
  lemma WindowText(hash: string -> Digest, o: Linkable, libraries: map<string, Address>, k: nat)
    requires Apart(o) && k in o.refs
    ensures 2 * k + 42 <= 2 * |o.code|
    ensures Text(hash, o)[2 * k..2 * k + 42] == Placeholder(hash, o.refs[k])
    ensures LinkedText(hash, o, libraries)[2 * k..2 * k + 42] ==
            if o.refs[k] in libraries then Hex(libraries[o.refs[k]]) else Placeholder(hash, o.refs[k])
    ensures Between(o, 2 * k + 42)
  {
    hide Placeholder, Hex, Text, LinkedText;
    forall i | 2 * k <= i < 2 * k + 42 ensures At(o.refs, i / 2) == Some(k) {
      AtUnique(o, k, i / 2);
    }
  }

  /** Scanning the text of an object finds exactly its references. */
  lemma {:induction false} LinkTextFrom(
    hash: string -> Digest, o: Linkable, libraries: map<string, Address>, replacements: map<string, Address>, p: nat)
    requires Apart(o) && AllCovered(hash, o, libraries, replacements)
    requires p <= 2 * |o.code| && Between(o, p)
    ensures LinkText(Text(hash, o)[p..], replacements) == Some(LinkedText(hash, o, libraries)[p..])
    decreases 2 * |o.code| - p
  {
    hide Placeholder, Hex, Text, LinkedText, At, TextChar, LinkedChar;
    var text, linked := Text(hash, o), LinkedText(hash, o, libraries);
    if p == |text| {
      assert text[p..] == "" && linked[p..] == "";
    } else if p % 2 == 0 && p / 2 in o.refs {
      WindowText(hash, o, libraries, p / 2);
      LinkTextFrom(hash, o, libraries, replacements, p + 42);
      WindowStep(hash, o, libraries, replacements, text, linked, p);
    } else {
      OutsideChar(hash, o, libraries, p);
      LinkTextFrom(hash, o, libraries, replacements, p + 1);
      assert text[p..][1..] == text[p + 1..] && linked[p..] == [linked[p]] + linked[p + 1..];
    }
  }

  lemma WindowStep(
    hash: string -> Digest, o: Linkable, libraries: map<string, Address>, replacements: map<string, Address>,
    text: string, linked: string, p: nat)
    requires p % 2 == 0 && p / 2 in o.refs && AllCovered(hash, o, libraries, replacements)
    requires p + 42 <= |text| == |linked| && text[p..p + 42] == Placeholder(hash, o.refs[p / 2])
    requires linked[p..p + 42] == if o.refs[p / 2] in libraries then Hex(libraries[o.refs[p / 2]])
      else Placeholder(hash, o.refs[p / 2])
    requires LinkText(text[p + 42..], replacements) == Some(linked[p + 42..])
    ensures LinkText(text[p..], replacements) == Some(linked[p..])
  {
    hide Placeholder, Hex;
    var name := o.refs[p / 2];
    assert Covers(hash, libraries, replacements, name);
    assert text[p..][..42] == text[p..p + 42] == Placeholder(hash, name);
    assert text[p..][42..] == text[p + 42..];
    assert linked[p..] == linked[p..p + 42] + linked[p + 42..];
    assert text[p..][0] == text[p..p + 42][0] == '_' && text[p..][1] == text[p..p + 42][1];
    assert text[p..][40] == text[p..p + 42][40] && text[p..][41] == text[p..p + 42][41];
  }

  // ---------------------------------------------------------------- the linkers agree

  /** The library is given by the full name of the reference. */
  predicate Given(o: Linkable, libraries: map<string, Address>, k: nat)
    requires k in o.refs
  {
    o.refs[k] in libraries
  }

  lemma GivenIsResolved(o: Linkable, libraries: map<string, Address>, k: nat)
    requires k in o.refs && Given(o, libraries, k)
    ensures Resolved(o, libraries, k) && MatchLibrary(o.refs[k], libraries) == Some(libraries[o.refs[k]])
  {
  }

  /** Character `i` is where the linkers may differ: in a reference that is
      resolved by its short name only, which the text linker does not know, or in
      the last byte of a resolved reference. */
  ghost predicate MayDiffer(o: Linkable, libraries: map<string, Address>, i: nat) {
    exists k <- o.refs :: Inside(k, i / 2) && Resolved(o, libraries, k) && (!Given(o, libraries, k) || i / 2 == k + 20)
  }

  /** Character by character, the linkers differ nowhere else. */
  lemma CharsAgree(hash: string -> Digest, o: Linkable, libraries: map<string, Address>, i: nat)
    requires Apart(o) && i < 2 * |o.code| && !MayDiffer(o, libraries, i)
    ensures LinkedText(hash, o, libraries)[i] == Text(hash, Linked(o, libraries))[i]
  {
    hide Placeholder, Hex, Text, LinkedText, At, Linked, MatchLibrary;
    var r := Linked(o, libraries);
    match At(o.refs, i / 2)
    case None =>
      assert At(r.refs, i / 2).None?;
    case Some(k) =>
      if Resolved(o, libraries, k) {
        GivenIsResolved(o, libraries, k);
        ResolvedLeaves(o, libraries, k, i / 2);
      } else {
        NotGiven(o, libraries, k);
        assert Apart(r);
        AtUnique(r, k, i / 2);
      }
  }

  lemma NotGiven(o: Linkable, libraries: map<string, Address>, k: nat)
    requires k in o.refs && !Resolved(o, libraries, k)
    ensures !Given(o, libraries, k)
  {
  }

  lemma ResolvedLeaves(o: Linkable, libraries: map<string, Address>, k: nat, i: nat)
    requires Apart(o) && k in o.refs && Resolved(o, libraries, k) && Inside(k, i)
    ensures At(Linked(o, libraries).refs, i).None?
  {
    hide MatchLibrary;
  }

  /** The last byte of a given library's reference after linking the text: a
      digit of the address's last byte ... */
  lemma LastByteOfText(hash: string -> Digest, o: Linkable, libraries: map<string, Address>, k: nat, i: nat)
    requires Apart(o) && k in o.refs && Given(o, libraries, k)
    requires i == 2 * k + 40 || i == 2 * k + 41
    ensures LinkedText(hash, o, libraries)[i] == HexDigit(libraries[o.refs[k]][20], i == 2 * k + 41)
  {
    hide Placeholder, LinkedText, At, HexDigit, Resolved;
    AtUnique(o, k, k + 20);
    assert i / 2 == k + 20 && (i - 2 * k) / 2 == 20;
  }

  /** ... and after linking the bytes: the byte that was there. */
  lemma LastByteOfBytes(hash: string -> Digest, o: Linkable, libraries: map<string, Address>, k: nat, i: nat)
    requires Apart(o) && k in o.refs && Resolved(o, libraries, k)
    requires i == 2 * k + 40 || i == 2 * k + 41
    ensures Text(hash, Linked(o, libraries))[i] == HexDigit(o.code[k + 20], i == 2 * k + 41)
  {
    hide Placeholder, Text, At, Linked, HexDigit, Resolved;
    AtUnique(o, k, k + 20);
    ResolvedLeaves(o, libraries, k, k + 20);
    assert i / 2 == k + 20;
  }

  /** A reference by short name stays a placeholder in the text but not in the bytes. */
  lemma ShortNameDiffers(hash: string -> Digest, o: Linkable, libraries: map<string, Address>, k: nat)
    requires Apart(o) && k in o.refs && Resolved(o, libraries, k) && !Given(o, libraries, k)
    ensures LinkedText(hash, o, libraries)[2 * k] != Text(hash, Linked(o, libraries))[2 * k]
  {
    hide Placeholder, Text, LinkedText, At, Linked, Resolved, Hex, HexDigit;
    AtUnique(o, k, k);
    ResolvedLeaves(o, libraries, k, k);
    assert (2 * k) / 2 == k;
  }

  /** The linkers treat reference `k` alike: it is not resolved, or by its full
      name with an address whose last byte is already in the code. */
  predicate TreatedAlike(o: Linkable, libraries: map<string, Address>, k: nat)
    requires k in o.refs
  {
    Resolved(o, libraries, k) ==>
      Given(o, libraries, k) && k + 20 < |o.code| && libraries[o.refs[k]][20] == o.code[k + 20]
  }

  lemma AlikeAgrees(hash: string -> Digest, o: Linkable, libraries: map<string, Address>, i: nat)
    requires Apart(o) && MayDiffer(o, libraries, i) && i < 2 * |o.code|
    requires forall k <- o.refs :: TreatedAlike(o, libraries, k)
    ensures LinkedText(hash, o, libraries)[i] == Text(hash, Linked(o, libraries))[i]
  {
    hide Placeholder, Text, LinkedText, Linked, LinkedByte, HexDigit, Resolved, TextChar, LinkedChar, At, MatchLibrary;
    var k :| k in o.refs && Inside(k, i / 2) && Resolved(o, libraries, k) &&
        (!Given(o, libraries, k) || i / 2 == k + 20);
    assert TreatedAlike(o, libraries, k);
    LastByteOfText(hash, o, libraries, k, i);
    LastByteOfBytes(hash, o, libraries, k, i);
  }

  lemma AgreeingIsAlike(hash: string -> Digest, o: Linkable, libraries: map<string, Address>, k: nat)
    requires Apart(o) && k in o.refs && LinkedText(hash, o, libraries) == Text(hash, Linked(o, libraries))
    ensures TreatedAlike(o, libraries, k)
  {
    hide Placeholder, Text, LinkedText, Linked, LinkedByte, HexDigit, Resolved, TextChar, LinkedChar, At, MatchLibrary;
    if Resolved(o, libraries, k) {
      if Given(o, libraries, k) {
        LastByteOfText(hash, o, libraries, k, 2 * k + 40);
        LastByteOfText(hash, o, libraries, k, 2 * k + 41);
        LastByteOfBytes(hash, o, libraries, k, 2 * k + 40);
        LastByteOfBytes(hash, o, libraries, k, 2 * k + 41);
        HexDigitsInjective(libraries[o.refs[k]][20], o.code[k + 20]);
      } else {
        ShortNameDiffers(hash, o, libraries, k);
      }
    }
  }

  /** Linking the printed text and printing the linked object agree but on
      references by short name and on the last byte of resolved references, and
      completely if and only if every reference is treated alike. */
  lemma LinkersAgree(hash: string -> Digest, o: Linkable, libraries: map<string, Address>, replacements: map<string,
      Address>)
    requires Apart(o) && OwnPlaceholders(hash, o, libraries)
    requires forall name :: Unambiguous(hash, libraries, name) ==> Covers(hash, libraries, replacements, name)
    ensures var text := LinkText(Text(hash, o), replacements);
            var printed := Text(hash, Linked(o, libraries));
            text.Some? && |text.value| == |printed| &&
            (forall i :: 0 <= i < |printed| && !MayDiffer(o, libraries, i) ==> text.value[i] == printed[i]) &&
            (text.value == printed <==> forall k <- o.refs :: TreatedAlike(o, libraries, k))
  {
    hide Placeholder, Hex, Text, LinkedText, Linked, LinkedChar, TextChar, TreatedAlike, Unambiguous, MayDiffer,
        LinkText, Covers;
    LinkTextFrom(hash, o, libraries, replacements, 0);
    var text, linked, printed := Text(hash, o), LinkedText(hash, o, libraries), Text(hash, Linked(o, libraries));
    assert text[0..] == text && linked[0..] == linked;
    forall i | 0 <= i < |printed| && !MayDiffer(o, libraries, i) ensures linked[i] == printed[i] {
      CharsAgree(hash, o, libraries, i);
    }
    if linked == printed {
      forall k <- o.refs ensures TreatedAlike(o, libraries, k) {
        AgreeingIsAlike(hash, o, libraries, k);
      }
    }
    if forall k <- o.refs :: TreatedAlike(o, libraries, k) {
      forall i | 0 <= i < |printed| && MayDiffer(o, libraries, i) ensures linked[i] == printed[i] {
        AlikeAgrees(hash, o, libraries, i);
      }
    }
  }

  // ---------------------------------------------------------------- assembled objects

  ghost function ObjectOf(out: AssemblyModel.Assembled): Linkable {
    Linkable(out.linked.bytecode, out.linked.linkReferences)
  }

  /** The assembler's objects meet what both linkers rely on. */
  lemma AssembledIsApart(a: AssemblyModel.Assembly, out: AssemblyModel.Assembled)
    requires AssemblyModel.Correct(a, out)
    ensures Apart(ObjectOf(out))
    ensures forall k <- ObjectOf(out).refs :: ObjectOf(out).code[k + 20] == 0
  {
    AssemblyPlacement.CorrectLinksFit(a, out);
    hide AssemblyModel.Correct;
    forall k <- ObjectOf(out).refs ensures k + 21 <= |out.linked.bytecode| && out.linked.bytecode[k + 20] == 0 {
      assert AssemblyPlacement.Blank(out.linked.bytecode, k);
    }
  }

  /** On assembled objects the linkers agree completely if and only if every
      reference that is resolved is so by its full name, with an address that
      ends in a zero byte. */
  lemma AssembledLinkersAgree(
    hash: string -> Digest, a: AssemblyModel.Assembly, out: AssemblyModel.Assembled, libraries: map<string, Address>,
    replacements: map<string, Address>)
    requires AssemblyModel.Correct(a, out) && OwnPlaceholders(hash, ObjectOf(out), libraries)
    requires forall name :: Unambiguous(hash, libraries, name) ==> Covers(hash, libraries, replacements, name)
    ensures LinkText(Text(hash, ObjectOf(out)), replacements) == Some(Text(hash, Linked(ObjectOf(out), libraries)))
       <==> forall k <- ObjectOf(out).refs :: Resolved(ObjectOf(out), libraries, k) ==>
              Given(ObjectOf(out), libraries, k) && libraries[ObjectOf(out).refs[k]][20] == 0
  {
    hide AssemblyModel.Correct, Text, Linked, LinkText, Resolved, Unambiguous, Covers, Apart;
    AssembledIsApart(a, out);
    var o := ObjectOf(out);
    LinkersAgree(hash, o, libraries, replacements);
    forall k <- o.refs
      ensures TreatedAlike(o, libraries, k) <==>
        (Resolved(o, libraries, k) ==> Given(o, libraries, k) && libraries[o.refs[k]][20] == 0)
    {
      ApartInside(o, k);
    }
  }

  lemma ApartInside(o: Linkable, k: nat)
    requires Apart(o) && k in o.refs
    ensures k + 20 < |o.code|
  {
  }
}
