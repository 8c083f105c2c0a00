/**
 * The source generator of the theme palette registry
 * (Samples/Generators/Generators/ThemeRegistryGenerator.cs): which classes
 * contribute an entry, and the text of the generated registry class.
 *
 * The compiler's symbols are reduced to what the generator reads: a class's
 * name, its display string and its attributes; an attribute's class (null
 * when unresolved) and the string form of its first constructor argument
 * (absent when there is none or its value is null). The generated text is
 * modelled as its sequence of lines.
 */
module RegistryGenerator {
  import opened Wrappers

  datatype AttributeClass = AttributeClass(name: string, displayString: string)

  datatype AttributeData = AttributeData(attributeClass: Option<AttributeClass>, firstArgument: Option<string>)

  datatype ClassSymbol = ClassSymbol(name: string, displayString: string, attributes: seq<AttributeData>)

  /** A registry entry: the palette's name and the full name of its type. */
  type Entry = (string, string)

  predicate EndsWith(s: string, suffix: string) {
    |suffix| <= |s| && s[|s| - |suffix|..] == suffix
  }

  /** The attribute filter: the class is named ThemePaletteAttribute, or its display string ends in .ThemePaletteAttribute. */
  predicate IsThemePaletteAttribute(a: AttributeData) {
    && a.attributeClass.Some?
    && (|| a.attributeClass.value.name == "ThemePaletteAttribute"
        || EndsWith(a.attributeClass.value.displayString, ".ThemePaletteAttribute"))
  }

  /** FirstOrDefault over the attributes with the filter. */
  function FirstThemeAttribute(attrs: seq<AttributeData>): (r: Option<AttributeData>)
    ensures r.None? <==> forall i :: 0 <= i < |attrs| ==> !IsThemePaletteAttribute(attrs[i])
    ensures r.Some? ==> exists i :: (0 <= i < |attrs| && attrs[i] == r.value && IsThemePaletteAttribute(attrs[i])
      && forall j :: 0 <= j < i ==> !IsThemePaletteAttribute(attrs[j]))
  {
    if attrs == [] then None
    else if IsThemePaletteAttribute(attrs[0]) then Some(attrs[0])
    else
      var r := FirstThemeAttribute(attrs[1..]);
      assert forall i :: 1 <= i < |attrs| ==> attrs[i] == attrs[1..][i - 1];
      r
  }

  /** The entry of one class: the attribute's first argument, or else the class name, with the type's display string. */
  function EntryOf(c: ClassSymbol): (r: Option<Entry>)
    ensures r.Some? <==> exists i :: 0 <= i < |c.attributes| && IsThemePaletteAttribute(c.attributes[i])
    ensures r.Some? ==> r.value.1 == c.displayString
    ensures r.Some? && FirstThemeAttribute(c.attributes).value.firstArgument.None? ==> r.value.0 == c.name
  {
    match FirstThemeAttribute(c.attributes)
    case None => None
    case Some(a) => Some((if a.firstArgument.Some? then a.firstArgument.value else c.name, c.displayString))
  }

  predicate Contributes(c: Option<ClassSymbol>) {
    c.Some? && EntryOf(c.value).Some?
  }

  /** The registry list: one entry per contributing class, in the order of the classes; null symbols are skipped. */
  function Entries(classes: seq<Option<ClassSymbol>>): (r: seq<Entry>)
    ensures |r| <= |classes|
    ensures r == [] <==> forall i :: 0 <= i < |classes| ==> !Contributes(classes[i])
  {
    if classes == [] then []
    else
      var init := classes[..|classes| - 1];
      var last := classes[|classes| - 1];
      assert forall i :: 0 <= i < |init| ==> init[i] == classes[i];
      Entries(init) + if Contributes(last) then [EntryOf(last.value).value] else []
  }

  /** The class entry k of the registry comes from. */
  function SourceIndex(classes: seq<Option<ClassSymbol>>, k: nat): (i: nat)
    requires k < |Entries(classes)|
    ensures i < |classes| && Contributes(classes[i]) && EntryOf(classes[i].value) == Some(Entries(classes)[k])
  {
    var init := classes[..|classes| - 1];
    assert Entries(classes)[..|Entries(init)|] == Entries(init);
    if k < |Entries(init)| then
      var i := SourceIndex(init, k);
      assert init[i] == classes[i];
      i
    else
      |classes| - 1
  }

  /** The registry keeps the order of the classes: later entries come from later classes. */
  lemma {:induction false} SourceIndexIncreasing(classes: seq<Option<ClassSymbol>>, j: nat, k: nat)
    requires j < k < |Entries(classes)|
    ensures SourceIndex(classes, j) < SourceIndex(classes, k)
  {
    var init := classes[..|classes| - 1];
    assert Entries(classes)[..|Entries(init)|] == Entries(init);
    if k < |Entries(init)| {
      SourceIndexIncreasing(init, j, k);
    }
  }

  /** Every contributing class has its entry in the registry. */
  lemma {:induction false} ContributorListed(classes: seq<Option<ClassSymbol>>, i: nat)
    requires i < |classes| && Contributes(classes[i])
    ensures EntryOf(classes[i].value).value in Entries(classes)
  {
    var init := classes[..|classes| - 1];
    if i < |init| {
      assert init[i] == classes[i];
      ContributorListed(init, i);
    }
  }

  /** The foreach of the output callback, collecting typeRegistry. */
  method CollectEntries(classes: seq<Option<ClassSymbol>>) returns (typeRegistry: seq<Entry>)
    ensures typeRegistry == Entries(classes)
  {
    typeRegistry := [];
    for i := 0 to |classes|
      invariant typeRegistry == Entries(classes[..i])
    {
      assert classes[..i + 1][..i] == classes[..i];
      var classSymbol := classes[i];
      if classSymbol.None? {
        continue;
      }
      var attribute := FirstThemeAttribute(classSymbol.value.attributes);
      if attribute.Some? {
        var name := if attribute.value.firstArgument.Some? then attribute.value.firstArgument.value else classSymbol.value.name;
        typeRegistry := typeRegistry + [(name, classSymbol.value.displayString)];
      }
    }
    assert classes[..|classes|] == classes;
  }

  const Header: seq<string> := [
    "public static class ThemePaletteRegistry",
    "{",
    "    private static readonly (string Name, System.Type Type)[] _types = new (string, System.Type)[]",
    "    {"]

  const Footer: seq<string> := [
    "    };",
    "    public static IReadOnlyList<(string Name, System.Type Type)> Types => _types;",
    "}"]

  const EntryPrefix := "        (\""
  const EntryMiddle := "\", typeof("
  const EntrySuffix := ")),"

  /** One array element line; name and type name are inserted without escaping. */
  function EntryLine(e: Entry): string {
    EntryPrefix + e.0 + EntryMiddle + e.1 + EntrySuffix
  }

  function EntryLines(types: seq<Entry>): (r: seq<string>)
    ensures |r| == |types|
    ensures forall i :: 0 <= i < |types| ==> r[i] == EntryLine(types[i])
  {
    if types == [] then [] else EntryLines(types[..|types| - 1]) + [EntryLine(types[|types| - 1])]
  }

  /** The text GenerateRegistryClass builds, line by line. */
  function RegistryLines(types: seq<Entry>): (r: seq<string>)
    ensures |r| == |types| + 7
    ensures r[..4] == Header && r[|r| - 3..] == Footer
    ensures forall i :: 0 <= i < |types| ==> r[4 + i] == EntryLine(types[i])
  {
    Header + EntryLines(types) + Footer
  }

  /** GenerateRegistryClass: the header, one line per entry in order, the footer. */
  method GenerateRegistryClass(types: seq<Entry>) returns (lines: seq<string>)
    ensures lines == RegistryLines(types)
  {
    lines := Header;
    for i := 0 to |types|
      invariant lines == Header + EntryLines(types[..i])
    {
      assert types[..i + 1][..i] == types[..i];
      lines := lines + [EntryLine(types[i])];
    }
    assert types[..|types|] == types;
    lines := lines + Footer;
  }

  /** The output callback: the registry source when there is at least one entry, and nothing otherwise. */
  method GenerateOutput(classes: seq<Option<ClassSymbol>>) returns (source: Option<seq<string>>)
    ensures source.None? <==> forall i :: 0 <= i < |classes| ==> !Contributes(classes[i])
    ensures source.Some? ==> source.value == RegistryLines(Entries(classes))
  {
    var typeRegistry := CollectEntries(classes);
    if |typeRegistry| > 0 {
      var text := GenerateRegistryClass(typeRegistry);
      source := Some(text);
    } else {
      source := None;
    }
  }

  /** The index of the first '"' in s, or |s| when there is none. */
  function FirstQuote(s: string): (k: nat)
    ensures k <= |s| && '"' !in s[..k]
    ensures k < |s| ==> s[k] == '"'
  {
    if s == [] || s[0] == '"' then 0
    else
      var k := FirstQuote(s[1..]);
      assert s[..k + 1] == [s[0]] + s[1..][..k];
      k + 1
  }

  /** The text between the entry line's fixed prefix and suffix. */
  function StripAffixes(line: string): (r: Option<string>)
    ensures r.Some? ==> line == EntryPrefix + r.value + EntrySuffix
  {
    if |line| >= |EntryPrefix| + |EntrySuffix| && line[..|EntryPrefix|] == EntryPrefix
       && line[|line| - |EntrySuffix|..] == EntrySuffix then
      var body := line[|EntryPrefix|..|line| - |EntrySuffix|];
      assert line == line[..|EntryPrefix|] + body + line[|line| - |EntrySuffix|..];
      Some(body)
    else None
  }

  /** The name ends at the first '"'; the type name is what follows the fixed middle. */
  function SplitBody(body: string): (r: Option<Entry>)
    ensures r.Some? ==> body == r.value.0 + EntryMiddle + r.value.1
  {
    var k := FirstQuote(body);
    var rest := body[k..];
    if |rest| >= |EntryMiddle| && rest[..|EntryMiddle|] == EntryMiddle then
      assert body == body[..k] + rest[..|EntryMiddle|] + rest[|EntryMiddle|..];
      Some((body[..k], rest[|EntryMiddle|..]))
    else None
  }

  /** Reads an entry line back into its name and type name. */
  function ParseEntryLine(line: string): (r: Option<Entry>)
    ensures r.Some? ==> EntryLine(r.value) == line
  {
    match StripAffixes(line)
    case None => None
    case Some(body) => SplitBody(body)
  }

  function ParseEntryLines(lines: seq<string>): (r: Option<seq<Entry>>)
    ensures r.Some? ==> EntryLines(r.value) == lines
  {
    if lines == [] then Some([])
    else
      var init := ParseEntryLines(lines[..|lines| - 1]);
      var last := ParseEntryLine(lines[|lines| - 1]);
      if init.None? || last.None? then None
      else
        EntryLinesSnoc(init.value, last.value);
        assert lines == lines[..|lines| - 1] + [lines[|lines| - 1]];
        Some(init.value + [last.value])
  }

  lemma EntryLinesSnoc(types: seq<Entry>, e: Entry)
    ensures EntryLines(types + [e]) == EntryLines(types) + [EntryLine(e)]
  {
    assert (types + [e])[..|types|] == types;
  }

  /** Reads the generated text back into its entries. */
  function ParseRegistry(lines: seq<string>): (r: Option<seq<Entry>>)
    ensures r.Some? ==> RegistryLines(r.value) == lines
  {
    if |lines| < 7 || lines[..4] != Header || lines[|lines| - 3..] != Footer then None
    else
      var r := ParseEntryLines(lines[4..|lines| - 3]);
      if r.Some? then
        assert lines == lines[..4] + lines[4..|lines| - 3] + lines[|lines| - 3..];
        r
      else None
  }

  /** A name without '"' comes back out of its entry line. */
  lemma ParseEntryLineRoundTrip(e: Entry)
    requires '"' !in e.0
    ensures ParseEntryLine(EntryLine(e)) == Some(e)
  {
    var body := e.0 + EntryMiddle + e.1;
    var line := EntryPrefix + body + EntrySuffix;
    assert EntryLine(e) == line;
    assert line[..|EntryPrefix|] == EntryPrefix;
    assert line[|line| - |EntrySuffix|..] == EntrySuffix;
    assert line[|EntryPrefix|..|line| - |EntrySuffix|] == body;
    assert body == e.0 + (EntryMiddle + e.1);
    FirstQuoteAt(e.0, EntryMiddle + e.1);
    assert body[|e.0|..] == EntryMiddle + e.1;
  }

  lemma {:induction false} FirstQuoteAt(a: string, b: string)
    requires '"' !in a && |b| > 0 && b[0] == '"'
    ensures FirstQuote(a + b) == |a|
  {
    if a != [] {
      assert (a + b)[1..] == a[1..] + b;
      FirstQuoteAt(a[1..], b);
    } else {
      assert a + b == b;
    }
  }

  /** The generated text determines its entries when no name contains '"'. */
  lemma {:induction false} ParseEntryLinesRoundTrip(types: seq<Entry>)
    requires forall i :: 0 <= i < |types| ==> '"' !in types[i].0
    ensures ParseEntryLines(EntryLines(types)) == Some(types)
  {
    if types != [] {
      var init, last := types[..|types| - 1], types[|types| - 1];
      assert init + [last] == types;
      var lines := EntryLines(types);
      assert lines[..|lines| - 1] == EntryLines(init) && lines[|lines| - 1] == EntryLine(last);
      ParseEntryLinesRoundTrip(init);
      ParseEntryLineRoundTrip(last);
    }
  }

  lemma RegistryRoundTrip(types: seq<Entry>)
    requires forall i :: 0 <= i < |types| ==> '"' !in types[i].0
    ensures ParseRegistry(RegistryLines(types)) == Some(types)
  {
    var lines := RegistryLines(types);
    assert lines[4..|lines| - 3] == EntryLines(types);
    ParseEntryLinesRoundTrip(types);
  }

  /**
   * Without escaping, two different registries can produce the same line:
   * a name holding `", typeof(` ends its entry early.
   */
  lemma VerbatimNamesAmbiguous()
    ensures EntryLine(("a\", typeof(T)), (\"b", "U")) == EntryLine(("a", "T)), (\"b\", typeof(U"))
  {
  }
}
