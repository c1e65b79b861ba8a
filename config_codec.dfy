/** The text side of the document configuration panel
    (QtApp/src/qtapp/components/DocConfig.py): the `KEY=value` line parser,
    the quoted-list parser and writer, the fixed-order text `save_config`
    writes, the key dispatch `load_config` applies line by line, and the
    "first:last" texts of article page ranges. The panel's widgets are seen
    here as one value, a `Form`. */
module ConfigCodec {
  import opened Outcomes
  import opened PyText

  // ---- parse_config_line ----

  /** `parse_config_line`: None for a blank line, a `#` comment or a line
      without "="; otherwise the stripped parts before and after the FIRST
      "=", so the value may itself contain "=". */
  function ParseConfigLine(line: string): Option<(string, string)> {
    var t := Strip(line);
    if t == [] || t[0] == '#' then None
    else match SplitFirst(t, '=')
      case None => None
      case Some((key, value)) => Some((Strip(key), Strip(value)))
  }

  /** The cases of `parse_config_line`. */
  lemma ParseConfigLineCases(line: string)
    ensures var r := ParseConfigLine(line);
      && (r.None? <==> Strip(line) == [] || Strip(line)[0] == '#' || '=' !in Strip(line))
      && (r.Some? ==>
            var parts := SplitFirst(Strip(line), '=').value;
            && Strip(line) == parts.0 + "=" + parts.1 && '=' !in parts.0
            && r.value == (Strip(parts.0), Strip(parts.1)))
  {
  }

  /** A line written as `key=value`, with no "=" in the key and no
      surrounding whitespace, parses back to `(key, value)`. */
  lemma KeyValueLine(key: string, value: string)
    requires key != [] && key[0] != '#' && '=' !in key && NoSpaceAtEnds(key)
    requires NoSpaceAtEnds(value)
    ensures ParseConfigLine(key + "=" + value) == Some((key, value))
  {
    var line := key + ("=" + value);
    assert key + "=" + value == line;
    assert NoSpaceAtEnds(line) by {
      assert line[0] == key[0];
      if value == [] {
        assert line[|line| - 1] == '=';
      } else {
        assert line[|line| - 1] == value[|value| - 1];
      }
    }
    StripNoop(line);
    StripNoop(key);
    StripNoop(value);
    IndexOfShift(key, "=" + value, '=');
    assert IndexOf(line, '=') == Some(|key|);
    assert line[..|key|] == key && line[|key| + 1..] == value;
    assert SplitFirst(line, '=') == Some((key, value));
  }

  // ---- parse_list_value / format_list_value ----

  /** `re.findall(r'"([^"]*)"', s)`: the text between each pair of quotes,
      left to right; an unpaired last quote yields nothing. */
  function FindQuoted(s: string): seq<string>
    decreases |s|
  {
    match SplitFirst(s, '"')
    case None => []
    case Some((_, rest)) =>
      match SplitFirst(rest, '"')
      case None => []
      case Some((item, tail)) => [item] + FindQuoted(tail)
  }

  /** `parse_list_value`. */
  function ParseListValue(value: string): (r: seq<string>)
    ensures value == [] ==> r == []
  {
    if value == [] then [] else FindQuoted(value)
  }

  function Quote(x: string): string { "\"" + x + "\"" }

  function QuoteAll(items: seq<string>): (r: seq<string>)
    ensures |r| == |items| && forall k :: 0 <= k < |items| ==> r[k] == Quote(items[k])
  {
    seq(|items|, k requires 0 <= k < |items| => Quote(items[k]))
  }

  /** `format_list_value`: each item in quotes, joined by ", ". */
  function FormatList(items: seq<string>): string {
    Join(", ", QuoteAll(items))
  }

  predicate NoQuotes(items: seq<string>) {
    forall k :: 0 <= k < |items| ==> '"' !in items[k]
  }

  lemma IndexOfShift(p: string, s: string, c: char)
    requires c !in p
    ensures IndexOf(p + s, c) == match IndexOf(s, c) case None => None case Some(k) => Some(k + |p|)
  {
    if IndexOf(s, c).Some? {
      var k := IndexOf(s, c).value;
      assert (p + s)[k + |p|] == c;
    }
  }

  /** Text without quotes in front of `s` does not change where it splits. */
  lemma SplitFirstShift(p: string, s: string, c: char)
    requires c !in p
    ensures SplitFirst(p + s, c) == match SplitFirst(s, c) case None => None case Some((a, b)) => Some((p + a, b))
  {
    IndexOfShift(p, s, c);
    if IndexOf(s, c).Some? {
      var k := IndexOf(s, c).value;
      assert (p + s)[..k + |p|] == p + s[..k];
      assert (p + s)[k + |p| + 1..] == s[k + 1..];
    }
  }

  /** Text without quotes in front of `s` does not change what is found. */
  lemma FindQuotedSkip(p: string, s: string)
    requires '"' !in p
    ensures FindQuoted(p + s) == FindQuoted(s)
  {
    SplitFirstShift(p, s, '"');
  }

  /** A quoted item in front of `s` is found first. */
  lemma FindQuotedItem(x: string, s: string)
    requires '"' !in x
    ensures FindQuoted(Quote(x) + s) == [x] + FindQuoted(s)
  {
    var t := Quote(x) + s;
    assert t[0] == '"';
    assert t[1..] == x + ("\"" + s);
    IndexOfShift(x, "\"" + s, '"');
    assert IndexOf(t[1..], '"') == Some(|x|);
    assert t[1..1 + |x|] == x;
    assert t[2 + |x|..] == s;
  }

  /** Parsing the formatted list gives the items back, when no item contains
      a quote. */
  lemma {:induction false} ListRoundTrip(items: seq<string>)
    requires NoQuotes(items)
    ensures ParseListValue(FormatList(items)) == items
    decreases |items|
  {
    if items != [] {
      FindQuotedOfJoin(items);
      assert FormatList(items) != [] by { FormatListEnds(items); }
    }
  }

  lemma {:induction false} FindQuotedOfJoin(items: seq<string>)
    requires NoQuotes(items)
    ensures FindQuoted(FormatList(items)) == items
    decreases |items|
  {
    if items == [] {
    } else if |items| == 1 {
      FindQuotedItem(items[0], "");
      assert Quote(items[0]) + "" == Quote(items[0]);
    } else {
      FindQuotedOfJoin(items[1..]);
      FindQuotedCons(items);
    }
  }

  /** The step of `FindQuotedOfJoin`: the first item is found, then the rest. */
  lemma FindQuotedCons(items: seq<string>)
    requires |items| > 1 && '"' !in items[0]
    requires FindQuoted(FormatList(items[1..])) == items[1..]
    ensures FindQuoted(FormatList(items)) == items
  {
    FormatListCons(items);
    FindQuotedPair(items[0], FormatList(items[1..]));
    assert items == [items[0]] + items[1..];
  }

  /** A quoted item and ", " in front of `s` add the item to what is found. */
  lemma FindQuotedPair(x: string, s: string)
    requires '"' !in x
    ensures FindQuoted(Quote(x) + (", " + s)) == [x] + FindQuoted(s)
  {
    FindQuotedItem(x, ", " + s);
    FindQuotedSkip(", ", s);
  }

  /** A list of two or more items formats as its first item, ", " and the rest. */
  lemma FormatListCons(items: seq<string>)
    requires |items| > 1
    ensures FormatList(items) == Quote(items[0]) + (", " + FormatList(items[1..]))
  {
    assert QuoteAll(items)[1..] == QuoteAll(items[1..]);
  }

  lemma {:induction false} JoinEnds(sep: string, parts: seq<string>)
    requires parts != [] && forall k :: 0 <= k < |parts| ==> parts[k] != []
    ensures Join(sep, parts) != []
    ensures Join(sep, parts)[0] == parts[0][0]
    ensures Join(sep, parts)[|Join(sep, parts)| - 1] == parts[|parts| - 1][|parts[|parts| - 1]| - 1]
    decreases |parts|
  {
    if |parts| > 1 {
      JoinEnds(sep, parts[1..]);
    }
  }

  /** A non-empty formatted list starts and ends with a quote. */
  lemma FormatListEnds(items: seq<string>)
    ensures items == [] ==> FormatList(items) == []
    ensures items != [] ==> FormatList(items) != [] && FormatList(items)[0] == '"'
                            && FormatList(items)[|FormatList(items)| - 1] == '"'
  {
    if items != [] {
      JoinEnds(", ", QuoteAll(items));
    }
  }

  lemma {:induction false} JoinExcludes(sep: string, parts: seq<string>, c: char)
    requires c !in sep && forall k :: 0 <= k < |parts| ==> c !in parts[k]
    ensures c !in Join(sep, parts)
    decreases |parts|
  {
    if |parts| > 1 {
      JoinExcludes(sep, parts[1..], c);
    }
  }

  /** A character that is no quote, comma or space and occurs in no item does
      not occur in the formatted list. */
  lemma FormatListExcludes(items: seq<string>, c: char)
    requires c != '"' && c != ',' && c != ' '
    requires forall k :: 0 <= k < |items| ==> c !in items[k]
    ensures c !in FormatList(items)
  {
    JoinExcludes(", ", QuoteAll(items), c);
  }

  // ---- the combo boxes ----

  const AnnotTypeItems: seq<string> := ["underline", "highlight"]
  const ColorItems: seq<string> := ["black", "white", "gray", "blue", "red", "dark_blue"]

  /** The OFFSET item for `i`: "+i" for positive `i`, `str(i)` otherwise. */
  function OffsetLabel(i: int): string {
    if i > 0 then "+" + IntToString(i) else IntToString(i)
  }

  /** The labels the offset loop adds for the first `n` values of
      `range(-10, 11)`; zero is skipped. */
  function OffsetLabels(n: nat): seq<string>
    requires n <= 21
  {
    if n == 0 then []
    else OffsetLabels(n - 1) + (if n - 11 == 0 then [] else [OffsetLabel(n - 11)])
  }

  /** The offset of OFFSET item `k` (1 to 20): -10 to -1, then +1 to +10. */
  function OffsetValue(k: int): int {
    if k <= 10 then k - 11 else k - 10
  }

  function OffsetItem(k: int): string {
    if k == 0 then "" else OffsetLabel(OffsetValue(k))
  }

  /** The OFFSET combo: an empty item, then -10..-1 and +1..+10. Each item's
      data is its text, so `findData` and `findText` agree. */
  const OffsetItems: seq<string> := ["", "-10", "-9", "-8", "-7", "-6", "-5", "-4", "-3", "-2", "-1",
                                     "+1", "+2", "+3", "+4", "+5", "+6", "+7", "+8", "+9", "+10"]

  lemma SmallLabel(d: int)
    requires 1 <= d <= 10
    ensures d < 10 ==> OffsetLabel(d) == ['+', DigitChar(d)] && OffsetLabel(-d) == ['-', DigitChar(d)]
    ensures d == 10 ==> OffsetLabel(d) == "+10" && OffsetLabel(-d) == "-10"
  {
    if d == 10 {
      assert NatToString(10) == [DigitChar(1), DigitChar(0)];
      assert DigitChar(1) == '1' && DigitChar(0) == '0';
    }
  }

  /** Item `k` is the empty text or the label of its offset. */
  lemma OffsetItemsAreLabels()
    ensures forall k :: 0 <= k < |OffsetItems| ==> OffsetItems[k] == OffsetItem(k)
  {
    SmallLabel(1);
    SmallLabel(2);
    SmallLabel(3);
    SmallLabel(4);
    SmallLabel(5);
    SmallLabel(6);
    SmallLabel(7);
    SmallLabel(8);
    SmallLabel(9);
    SmallLabel(10);
    assert DigitChar(1) == '1';
    assert DigitChar(2) == '2';
    assert DigitChar(3) == '3';
    assert DigitChar(4) == '4';
    assert DigitChar(5) == '5';
    assert DigitChar(6) == '6';
    assert DigitChar(7) == '7';
    assert DigitChar(8) == '8';
    assert DigitChar(9) == '9';
  }

  lemma OffsetItemAt(k: int)
    requires 0 <= k < |OffsetItems|
    ensures OffsetItems[k] == OffsetItem(k)
  {
    OffsetItemsAreLabels();
  }

  /** The offset loop builds exactly these items after the empty one. */
  lemma OffsetItemsBuilt()
    ensures [""] + OffsetLabels(21) == OffsetItems
  {
    OffsetLabelsAt(21);
    OffsetItemsAreLabels();
    forall k | 0 <= k < 21 ensures ([""] + OffsetLabels(21))[k] == OffsetItems[k] {
      if k > 0 {
        assert ([""] + OffsetLabels(21))[k] == OffsetLabels(21)[k - 1];
      }
    }
  }

  /** `findText`/`findData`: the first index holding `x`, or -1. */
  function FindItem(items: seq<string>, x: string): (r: int)
    ensures -1 <= r < |items|
  {
    if items == [] then -1
    else if items[0] == x then 0
    else var k := FindItem(items[1..], x); if k < 0 then -1 else k + 1
  }

  /** `FindItem` gives -1 exactly when `x` is missing, and otherwise the
      first index holding `x`. */
  lemma {:induction false} FindItemFirst(items: seq<string>, x: string)
    ensures FindItem(items, x) == -1 <==> x !in items
    ensures FindItem(items, x) >= 0 ==>
      items[FindItem(items, x)] == x && forall j :: 0 <= j < FindItem(items, x) ==> items[j] != x
    decreases |items|
  {
    if items != [] && items[0] != x {
      FindItemFirst(items[1..], x);
      assert x in items <==> x in items[1..] by {
        assert items == [items[0]] + items[1..];
      }
      var k := FindItem(items[1..], x);
      if k >= 0 {
        forall j | 0 <= j < k + 1 ensures items[j] != x {
          if j > 0 {
            assert items[j] == items[1..][j - 1];
          }
        }
      }
    }
  }

  predicate Distinct(items: seq<string>) {
    forall i, j :: 0 <= i < j < |items| ==> items[i] != items[j]
  }

  lemma FindDistinct(items: seq<string>, i: int)
    requires Distinct(items) && 0 <= i < |items|
    ensures FindItem(items, items[i]) == i
  {
    FindItemFirst(items, items[i]);
  }

  lemma {:induction false} OffsetLabelsAt(n: nat)
    requires n <= 21
    ensures |OffsetLabels(n)| == (if n <= 10 then n else n - 1)
    ensures forall k :: 0 <= k < |OffsetLabels(n)| ==>
      OffsetLabels(n)[k] == OffsetLabel(if k < 10 then k - 10 else k - 9)
  {
    if n > 0 {
      OffsetLabelsAt(n - 1);
      var prev := OffsetLabels(n - 1);
      if n - 11 != 0 {
        assert OffsetLabels(n) == prev + [OffsetLabel(n - 11)];
      }
    }
  }

  /** Every character of `str(n)` is a digit or a minus sign. */
  lemma IntToStringChars(n: int)
    ensures forall i :: 0 <= i < |IntToString(n)| ==> IntToString(n)[i] == '-' || IsDigit(IntToString(n)[i])
    ensures n < 0 ==> IntToString(n)[0] == '-'
    ensures n >= 0 ==> IsDigit(IntToString(n)[0])
  {
    if n < 0 {
      var s := IntToString(n);
      assert forall i :: 1 <= i < |s| ==> s[i] == NatToString(-n)[i - 1];
    }
  }

  predicate NumericText(s: string) {
    forall i :: 0 <= i < |s| ==> s[i] == '+' || s[i] == '-' || IsDigit(s[i])
  }

  lemma OffsetLabelShape(i: int)
    ensures NumericText(OffsetLabel(i)) && OffsetLabel(i) != []
    ensures OffsetLabel(i)[0] == (if i > 0 then '+' else if i < 0 then '-' else '0')
  {
    IntToStringChars(i);
    if i > 0 {
      assert forall k :: 1 <= k < |OffsetLabel(i)| ==> OffsetLabel(i)[k] == IntToString(i)[k - 1];
    } else if i == 0 {
      assert IntToString(0) == "0";
    }
  }

  lemma OffsetLabelInjective(i: int, j: int)
    requires i != j
    ensures OffsetLabel(i) != OffsetLabel(j)
  {
    OffsetLabelShape(i);
    OffsetLabelShape(j);
    if OffsetLabel(i) == OffsetLabel(j) {
      if i > 0 {
        assert IntToString(i) == OffsetLabel(i)[1..];
        assert IntToString(j) == OffsetLabel(j)[1..];
        IntToStringInjective(i, j);
      } else {
        IntToStringInjective(i, j);
      }
    }
  }

  lemma DistinctOffsetItems()
    ensures Distinct(OffsetItems)
  {
    forall i, j | 0 <= i < j < |OffsetItems|
      ensures OffsetItems[i] != OffsetItems[j]
    {
      OffsetItemAt(j);
      OffsetLabelShape(OffsetValue(j));
      if i > 0 {
        OffsetItemAt(i);
        OffsetLabelInjective(OffsetValue(i), OffsetValue(j));
      }
    }
  }

  lemma DistinctItems()
    ensures Distinct(AnnotTypeItems) && Distinct(ColorItems) && Distinct(OffsetItems)
  {
    DistinctOffsetItems();
  }

  // ---- the form, save_config and load_config ----

  /** The panel's saved state: the four check boxes, the four lists and the
      current index of each combo box. */
  datatype Form = Form(
    debug: bool,
    specialCase: seq<string>,
    delimiter: seq<string>,
    annotType: int,
    color: int,
    offset: int,
    articleBreaks: seq<string>,
    softYear: bool,
    deepSearch: bool,
    searchExclude: seq<string>,
    alternativeBib: bool)

  /** A combo box's current index always names one of its items. */
  predicate ValidForm(f: Form) {
    && 0 <= f.annotType < |AnnotTypeItems| && 0 <= f.color < |ColorItems|
    && 0 <= f.offset < |OffsetItems|
  }

  /** Python's `str(b)`. */
  function BoolText(b: bool): string { if b then "True" else "False" }

  /** The keys `save_config` writes, in its order. */
  const Keys: seq<string> := ["DEBUG", "SPECIAL_CASE", "BIBLIOGRAPHY_DELIMITER", "ANNOT_TYPE", "COLOR",
    "OFFSET", "ARTICLE_BREAKS", "SOFT_YEAR", "DEEP_SEARCH", "SEARCH_EXCLUDE", "ALTERNATIVE_BIB"]

  /** The value written for each key: a check box as `str(bool)`, a list
      through `format_list_value`, a combo box as its current text (for
      OFFSET its current data, which equals the text). */
  function SavedValues(f: Form): (vs: seq<string>)
    requires ValidForm(f)
    ensures |vs| == |Keys|
  {
    [ BoolText(f.debug), FormatList(f.specialCase), FormatList(f.delimiter),
      AnnotTypeItems[f.annotType], ColorItems[f.color], OffsetItems[f.offset],
      FormatList(f.articleBreaks), BoolText(f.softYear), BoolText(f.deepSearch),
      FormatList(f.searchExclude), BoolText(f.alternativeBib) ]
  }

  /** The line `f"{key}={value}"`. */
  function Line(key: string, value: string): string {
    key + "=" + value
  }

  /** The eleven `KEY=value` lines `save_config` builds. */
  function SaveLines(f: Form): (ls: seq<string>)
    requires ValidForm(f)
    ensures |ls| == |Keys| && forall k :: 0 <= k < |Keys| ==> ls[k] == Line(Keys[k], SavedValues(f)[k])
  {
    var vs := SavedValues(f);
    seq(|Keys|, k requires 0 <= k < |Keys| => Line(Keys[k], vs[k]))
  }

  /** The text `save_config` writes: the lines joined by "\n". */
  function SaveText(f: Form): string
    requires ValidForm(f)
  {
    Join("\n", SaveLines(f))
  }

  /** A combo box takes the found index, and keeps its own when the value is
      not one of its items. */
  function Choose(current: int, found: int): int {
    if found >= 0 then found else current
  }

  /** The if-chain of `load_config` on the key: the number of the branch
      taken, counting from 0, or -1 when the key is none of the eleven (the
      empty key included). */
  function KeyIndex(key: string): (k: int)
    ensures -1 <= k < |Keys|
  {
    if key == "DEBUG" then 0
    else if key == "SPECIAL_CASE" then 1
    else if key == "BIBLIOGRAPHY_DELIMITER" then 2
    else if key == "ANNOT_TYPE" then 3
    else if key == "COLOR" then 4
    else if key == "OFFSET" then 5
    else if key == "ARTICLE_BREAKS" then 6
    else if key == "SOFT_YEAR" then 7
    else if key == "DEEP_SEARCH" then 8
    else if key == "SEARCH_EXCLUDE" then 9
    else if key == "ALTERNATIVE_BIB" then 10
    else -1
  }

  /** The branches test exactly the keys `save_config` writes, in the same
      order, and no other key. */
  lemma KeyIndexKeys(key: string)
    ensures KeyIndex(key) >= 0 <==> key in Keys
    ensures key in Keys ==> Keys[KeyIndex(key)] == key
  {
  }

  /** The branch number of each key. */
  lemma KeyIndexes()
    ensures KeyIndex("DEBUG") == 0 && KeyIndex("SPECIAL_CASE") == 1
    ensures KeyIndex("BIBLIOGRAPHY_DELIMITER") == 2 && KeyIndex("ANNOT_TYPE") == 3
    ensures KeyIndex("COLOR") == 4 && KeyIndex("OFFSET") == 5
    ensures KeyIndex("ARTICLE_BREAKS") == 6 && KeyIndex("SOFT_YEAR") == 7
    ensures KeyIndex("DEEP_SEARCH") == 8 && KeyIndex("SEARCH_EXCLUDE") == 9
    ensures KeyIndex("ALTERNATIVE_BIB") == 10
  {
  }

  /** One parsed entry of `load_config`: the branch of its key. */
  function ApplyEntry(f: Form, key: string, value: string): (g: Form)
    ensures ValidForm(f) ==> ValidForm(g)
    ensures KeyIndex(key) == -1 ==> g == f
  {
    ApplyField(f, KeyIndex(key), value)
  }

  /** The branch of `load_config` for the key `Keys[k]`; any other `k`
      changes nothing. */
  function ApplyField(f: Form, k: int, value: string): (g: Form)
    ensures ValidForm(f) ==> ValidForm(g)
  {
    if k == 0 then f.(debug := LowerAscii(value) == "true")
    else if k == 1 then f.(specialCase := ParseListValue(value))
    else if k == 2 then f.(delimiter := ParseListValue(value))
    else if k == 3 then f.(annotType := Choose(f.annotType, FindItem(AnnotTypeItems, value)))
    else if k == 4 then f.(color := Choose(f.color, FindItem(ColorItems, value)))
    else if k == 5 then f.(offset := Choose(f.offset, FindItem(OffsetItems, value)))
    else if k == 6 then f.(articleBreaks := ParseListValue(value))
    else if k == 7 then f.(softYear := LowerAscii(value) == "true")
    else if k == 8 then f.(deepSearch := LowerAscii(value) == "true")
    else if k == 9 then f.(searchExclude := ParseListValue(value))
    else if k == 10 then f.(alternativeBib := LowerAscii(value) == "true")
    else f
  }

  /** A combo box moves to the first item equal to the value, and stays
      where it was when no item is. */
  lemma ChooseItem(items: seq<string>, current: int, value: string)
    ensures value in items ==> var r := Choose(current, FindItem(items, value));
      0 <= r < |items| && items[r] == value && forall j :: 0 <= j < r ==> items[j] != value
    ensures value !in items ==> Choose(current, FindItem(items, value)) == current
  {
    FindItemFirst(items, value);
  }

  /** One line of `load_config`. */
  function ApplyLine(f: Form, line: string): (g: Form)
    ensures ValidForm(f) ==> ValidForm(g)
    ensures ParseConfigLine(line).None? ==> g == f
  {
    match ParseConfigLine(line)
    case None => f
    case Some((key, value)) => ApplyEntry(f, key, value)
  }

  /** `load_config` over a sequence of lines, first to last. */
  function LoadLines(f: Form, lines: seq<string>): (g: Form)
    ensures ValidForm(f) ==> ValidForm(g)
    decreases |lines|
  {
    if lines == [] then f else LoadLines(ApplyLine(f, lines[0]), lines[1..])
  }

  lemma {:induction false} LoadLinesSnoc(f: Form, lines: seq<string>, line: string)
    ensures LoadLines(f, lines + [line]) == ApplyLine(LoadLines(f, lines), line)
    decreases |lines|
  {
    if lines == [] {
      assert [] + [line] == [line];
    } else {
      assert (lines + [line])[1..] == lines[1..] + [line];
      LoadLinesSnoc(ApplyLine(f, lines[0]), lines[1..], line);
    }
  }

  /** Loading the first i + 1 lines is loading the first i, then line i. */
  lemma LoadLinesStep(f: Form, lines: seq<string>, i: int)
    requires 0 <= i < |lines|
    ensures LoadLines(f, lines[..i + 1]) == ApplyLine(LoadLines(f, lines[..i]), lines[i])
  {
    PrefixSnoc(lines, i);
    LoadLinesSnoc(f, lines[..i], lines[i]);
  }

  lemma PrefixSnoc(lines: seq<string>, i: int)
    requires 0 <= i < |lines|
    ensures lines[..i + 1] == lines[..i] + [lines[i]]
  {
  }

  predicate IsBreak(c: char) { c == '\n' || c == '\r' }

  function BreakIndex(s: string): (r: Option<nat>)
    ensures r.Some? ==> r.value < |s| && IsBreak(s[r.value])
    ensures r.Some? ==> forall i :: 0 <= i < r.value ==> !IsBreak(s[i])
    ensures r.None? ==> forall i :: 0 <= i < |s| ==> !IsBreak(s[i])
  {
    if s == [] then None
    else if IsBreak(s[0]) then Some(0)
    else match BreakIndex(s[1..])
      case None => None
      case Some(k) => Some(k + 1)
  }

  /** The lines of a text: the pieces between line breaks ("\n" or "\r"). A
      "\r\n" gives an extra empty piece, which, being blank, parses to None
      just as the lines Python's reader would give. */
  function SplitLines(text: string): (ls: seq<string>)
    ensures |ls| >= 1
    ensures forall k :: 0 <= k < |ls| ==> NoBreak(ls[k])
    decreases |text|
  {
    match BreakIndex(text)
    case None => [text]
    case Some(i) => [text[..i]] + SplitLines(text[i + 1..])
  }

  /** `load_config` on a whole text. */
  function LoadText(f: Form, text: string): Form {
    LoadLines(f, SplitLines(text))
  }

  predicate NoBreak(s: string) { forall i :: 0 <= i < |s| ==> !IsBreak(s[i]) }

  lemma BreakIndexFirst(s: string, n: nat)
    requires n < |s| && IsBreak(s[n]) && forall i :: 0 <= i < n ==> !IsBreak(s[i])
    ensures BreakIndex(s) == Some(n)
  {
  }

  /** Splitting lines joined by "\n" gives them back, when none holds a
      break. */
  lemma {:induction false} SplitJoin(lines: seq<string>)
    requires lines != [] && forall k :: 0 <= k < |lines| ==> NoBreak(lines[k])
    ensures SplitLines(Join("\n", lines)) == lines
    decreases |lines|
  {
    if |lines| == 1 {
      assert BreakIndex(lines[0]).None?;
    } else {
      var a, t := lines[0], Join("\n", lines[1..]);
      var s := a + "\n" + t;
      assert Join("\n", lines) == s;
      assert BreakIndex(s) == Some(|a|) by {
        assert s[|a|] == '\n';
        forall i | 0 <= i < |a| ensures !IsBreak(s[i]) { assert s[i] == a[i]; }
        BreakIndexFirst(s, |a|);
      }
      assert s[..|a|] == a && s[|a| + 1..] == t;
      SplitJoin(lines[1..]);
    }
  }

  /** List items that survive the text format: no quote and no line break. */
  predicate CleanItems(items: seq<string>) {
    forall k :: 0 <= k < |items| ==> '"' !in items[k] && '\n' !in items[k] && '\r' !in items[k]
  }

  predicate CleanForm(f: Form) {
    && ValidForm(f)
    && CleanItems(f.specialCase) && CleanItems(f.delimiter)
    && CleanItems(f.articleBreaks) && CleanItems(f.searchExclude)
  }

  /** What a value must satisfy to be read back unchanged by
      `parse_config_line`. */
  predicate Writable(v: string) { NoSpaceAtEnds(v) && NoBreak(v) }

  lemma ListWritable(items: seq<string>)
    requires CleanItems(items)
    ensures Writable(FormatList(items))
  {
    FormatListEnds(items);
    FormatListExcludes(items, '\n');
    FormatListExcludes(items, '\r');
  }

  lemma BoolValue(b: bool)
    ensures Writable(BoolText(b)) && (LowerAscii(BoolText(b)) == "true") == b
  {
    if !b {
      assert LowerAscii(BoolText(b))[0] == 'f';
    }
  }

  /** Printable ASCII without the space. */
  predicate Graphic(s: string) {
    forall i :: 0 <= i < |s| ==> '!' <= s[i] <= '~'
  }

  lemma GraphicWritable(s: string)
    requires Graphic(s)
    ensures Writable(s)
  {
  }

  lemma ColorItemsGraphic(k: int)
    requires 0 <= k < |ColorItems|
    ensures Graphic(ColorItems[k])
  {
  }

  lemma OffsetItemsGraphic(k: int)
    requires 0 <= k < |OffsetItems|
    ensures Graphic(OffsetItems[k])
  {
    if k > 0 {
      OffsetItemAt(k);
      OffsetLabelShape(OffsetValue(k));
    }
  }

  /** Every combo item can be written unchanged. */
  lemma ComboWritable(f: Form)
    requires ValidForm(f)
    ensures Writable(AnnotTypeItems[f.annotType]) && Writable(ColorItems[f.color]) && Writable(OffsetItems[f.offset])
  {
    assert Graphic(AnnotTypeItems[f.annotType]);
    GraphicWritable(AnnotTypeItems[f.annotType]);
    ColorItemsGraphic(f.color);
    GraphicWritable(ColorItems[f.color]);
    OffsetItemsGraphic(f.offset);
    GraphicWritable(OffsetItems[f.offset]);
  }

  /** Each combo box's current text is found at its own index. */
  lemma ComboFound(f: Form)
    requires ValidForm(f)
    ensures FindItem(AnnotTypeItems, AnnotTypeItems[f.annotType]) == f.annotType
    ensures FindItem(ColorItems, ColorItems[f.color]) == f.color
    ensures FindItem(OffsetItems, OffsetItems[f.offset]) == f.offset
  {
    DistinctItems();
    FindDistinct(AnnotTypeItems, f.annotType);
    FindDistinct(ColorItems, f.color);
    FindDistinct(OffsetItems, f.offset);
  }

  /** Every saved value can be written without changing on reading. */
  lemma SavedValuesWritable(f: Form)
    requires CleanForm(f)
    ensures forall k :: 0 <= k < |Keys| ==> Writable(SavedValues(f)[k])
  {
    var vs := SavedValues(f);
    forall k | 0 <= k < |Keys| ensures Writable(vs[k]) {
      if k == 1 { ListWritable(f.specialCase); }
      else if k == 2 { ListWritable(f.delimiter); }
      else if k == 6 { ListWritable(f.articleBreaks); }
      else if k == 9 { ListWritable(f.searchExclude); }
      else if k == 0 { BoolValue(f.debug); }
      else if k == 7 { BoolValue(f.softYear); }
      else if k == 8 { BoolValue(f.deepSearch); }
      else if k == 10 { BoolValue(f.alternativeBib); }
      else {
        ComboWritable(f);
        assert vs[3] == AnnotTypeItems[f.annotType] && vs[4] == ColorItems[f.color] && vs[5] == OffsetItems[f.offset];
      }
    }
  }

  lemma KeysWritable()
    ensures forall k :: 0 <= k < |Keys| ==>
      Keys[k] != [] && Keys[k][0] != '#' && '=' !in Keys[k] && Writable(Keys[k])
  {
    forall k | 0 <= k < |Keys|
      ensures Keys[k] != [] && Keys[k][0] != '#' && '=' !in Keys[k] && Writable(Keys[k])
    {
      KeyChars(k);
      GraphicWritable(Keys[k]);
    }
  }

  /** Every key is made of capital letters and underscores. */
  lemma KeyChars(k: int)
    requires 0 <= k < |Keys|
    ensures Keys[k] != [] && forall i :: 0 <= i < |Keys[k]| ==> 'A' <= Keys[k][i] <= 'Z' || Keys[k][i] == '_'
  {
  }

  lemma WritableLine(key: string, value: string)
    requires Writable(key) && Writable(value)
    ensures NoBreak(key + "=" + value)
  {
    var line := key + "=" + value;
    forall i | 0 <= i < |line| ensures !IsBreak(line[i]) {
      if i < |key| { assert line[i] == key[i]; }
      else if i > |key| { assert line[i] == value[i - |key| - 1]; }
    }
  }

  /** Each saved line parses back to its key and value. */
  lemma SavedLinesParse(f: Form)
    requires CleanForm(f)
    ensures forall k :: 0 <= k < |Keys| ==>
      NoBreak(SaveLines(f)[k]) && ParseConfigLine(SaveLines(f)[k]) == Some((Keys[k], SavedValues(f)[k]))
  {
    SavedValuesWritable(f);
    KeysWritable();
    forall k | 0 <= k < |Keys|
      ensures NoBreak(SaveLines(f)[k]) && ParseConfigLine(SaveLines(f)[k]) == Some((Keys[k], SavedValues(f)[k]))
    {
      KeyValueLine(Keys[k], SavedValues(f)[k]);
      WritableLine(Keys[k], SavedValues(f)[k]);
    }
  }

  /** Entries applied first to last. */
  function EntriesFold(f: Form, keys: seq<string>, values: seq<string>): Form
    requires |keys| == |values|
    decreases |keys|
  {
    if keys == [] then f else EntriesFold(ApplyEntry(f, keys[0], values[0]), keys[1..], values[1..])
  }

  lemma ApplyParsedLine(f: Form, line: string, key: string, value: string)
    requires ParseConfigLine(line) == Some((key, value))
    ensures ApplyLine(f, line) == ApplyEntry(f, key, value)
  {
  }

  /** `load_config` skips the empty key, which no branch matches either. */
  lemma EmptyKeyIgnored(f: Form, value: string)
    ensures ApplyEntry(f, "", value) == f
  {
  }

  /** Loading lines that parse to given entries applies those entries. */
  lemma {:induction false} LoadParsedLines(f: Form, lines: seq<string>, keys: seq<string>, values: seq<string>)
    requires |lines| == |keys| == |values|
    requires forall k :: 0 <= k < |lines| ==> ParseConfigLine(lines[k]) == Some((keys[k], values[k]))
    ensures LoadLines(f, lines) == EntriesFold(f, keys, values)
    decreases |lines|
  {
    if lines != [] {
      var g := ApplyEntry(f, keys[0], values[0]);
      ApplyParsedLine(f, lines[0], keys[0], values[0]);
      assert LoadLines(f, lines) == LoadLines(g, lines[1..]);
      assert EntriesFold(f, keys, values) == EntriesFold(g, keys[1..], values[1..]);
      LoadParsedLines(g, lines[1..], keys[1..], values[1..]);
    }
  }

  /** `g` with the field saved under `Keys[k]` taken from `f`. */
  function CopyField(g: Form, f: Form, k: int): Form {
    if k == 0 then g.(debug := f.debug)
    else if k == 1 then g.(specialCase := f.specialCase)
    else if k == 2 then g.(delimiter := f.delimiter)
    else if k == 3 then g.(annotType := f.annotType)
    else if k == 4 then g.(color := f.color)
    else if k == 5 then g.(offset := f.offset)
    else if k == 6 then g.(articleBreaks := f.articleBreaks)
    else if k == 7 then g.(softYear := f.softYear)
    else if k == 8 then g.(deepSearch := f.deepSearch)
    else if k == 9 then g.(searchExclude := f.searchExclude)
    else if k == 10 then g.(alternativeBib := f.alternativeBib)
    else g
  }

  /** `g` with the fields saved under `Keys[k..]` taken from `f`. */
  function CopyFrom(g: Form, f: Form, k: nat): Form
    decreases |Keys| - k
  {
    if k >= |Keys| then g else CopyFrom(CopyField(g, f, k), f, k + 1)
  }

  /** A saved check box reads back as itself, in each check-box branch. */
  lemma CheckRead(g: Form, b: bool)
    ensures ApplyField(g, 0, BoolText(b)) == g.(debug := b)
    ensures ApplyField(g, 7, BoolText(b)) == g.(softYear := b)
    ensures ApplyField(g, 8, BoolText(b)) == g.(deepSearch := b)
    ensures ApplyField(g, 10, BoolText(b)) == g.(alternativeBib := b)
  {
    BoolValue(b);
  }

  /** A saved list reads back as itself, in each list branch. */
  lemma ListRead(g: Form, xs: seq<string>)
    requires CleanItems(xs)
    ensures ApplyField(g, 1, FormatList(xs)) == g.(specialCase := xs)
    ensures ApplyField(g, 2, FormatList(xs)) == g.(delimiter := xs)
    ensures ApplyField(g, 6, FormatList(xs)) == g.(articleBreaks := xs)
    ensures ApplyField(g, 9, FormatList(xs)) == g.(searchExclude := xs)
  {
    ListRoundTrip(xs);
  }

  /** A saved combo text selects the index it was saved from. */
  lemma ComboRead(g: Form, f: Form)
    requires ValidForm(f)
    ensures ApplyField(g, 3, AnnotTypeItems[f.annotType]) == g.(annotType := f.annotType)
    ensures ApplyField(g, 4, ColorItems[f.color]) == g.(color := f.color)
    ensures ApplyField(g, 5, OffsetItems[f.offset]) == g.(offset := f.offset)
  {
    ComboFound(f);
  }

  /** The eleven saved values, one by one. */
  lemma SavedValuesAt(f: Form)
    requires ValidForm(f)
    ensures SavedValues(f)[0] == BoolText(f.debug) && SavedValues(f)[1] == FormatList(f.specialCase)
    ensures SavedValues(f)[2] == FormatList(f.delimiter) && SavedValues(f)[3] == AnnotTypeItems[f.annotType]
    ensures SavedValues(f)[4] == ColorItems[f.color] && SavedValues(f)[5] == OffsetItems[f.offset]
    ensures SavedValues(f)[6] == FormatList(f.articleBreaks) && SavedValues(f)[7] == BoolText(f.softYear)
    ensures SavedValues(f)[8] == BoolText(f.deepSearch) && SavedValues(f)[9] == FormatList(f.searchExclude)
    ensures SavedValues(f)[10] == BoolText(f.alternativeBib)
  {
  }

  /** Each saved entry sets exactly its own field to the saved one. */
  lemma SavedEntry(g: Form, f: Form, k: int)
    requires CleanForm(f) && 0 <= k < |Keys|
    ensures ApplyEntry(g, Keys[k], SavedValues(f)[k]) == CopyField(g, f, k)
  {
    if k == 0 || k == 1 {
      SavedEntriesA(g, f, k);
    } else if k == 2 || k == 3 {
      SavedEntriesB(g, f, k);
    } else if k == 4 || k == 5 {
      SavedEntriesC(g, f, k);
    } else if k == 6 || k == 7 {
      SavedEntriesD(g, f, k);
    } else {
      SavedEntriesE(g, f, k);
    }
  }

  // `SavedEntry`, a few keys at a time.

  lemma SavedEntriesA(g: Form, f: Form, k: int)
    requires CleanForm(f) && (k == 0 || k == 1)
    ensures ApplyEntry(g, Keys[k], SavedValues(f)[k]) == CopyField(g, f, k)
  {
    SavedValuesAt(f);
    if k == 0 {
      assert KeyIndex(Keys[0]) == 0;
      CheckRead(g, f.debug);
    } else {
      assert KeyIndex(Keys[1]) == 1;
      ListRead(g, f.specialCase);
    }
  }

  lemma SavedEntriesB(g: Form, f: Form, k: int)
    requires CleanForm(f) && (k == 2 || k == 3)
    ensures ApplyEntry(g, Keys[k], SavedValues(f)[k]) == CopyField(g, f, k)
  {
    SavedValuesAt(f);
    if k == 2 {
      assert KeyIndex(Keys[2]) == 2;
      ListRead(g, f.delimiter);
    } else {
      assert KeyIndex(Keys[3]) == 3;
      ComboRead(g, f);
    }
  }

  lemma SavedEntriesC(g: Form, f: Form, k: int)
    requires CleanForm(f) && (k == 4 || k == 5)
    ensures ApplyEntry(g, Keys[k], SavedValues(f)[k]) == CopyField(g, f, k)
  {
    SavedValuesAt(f);
    if k == 4 {
      assert KeyIndex(Keys[4]) == 4;
      ComboRead(g, f);
    } else {
      assert KeyIndex(Keys[5]) == 5;
      ComboRead(g, f);
    }
  }

  lemma SavedEntriesD(g: Form, f: Form, k: int)
    requires CleanForm(f) && (k == 6 || k == 7)
    ensures ApplyEntry(g, Keys[k], SavedValues(f)[k]) == CopyField(g, f, k)
  {
    SavedValuesAt(f);
    if k == 6 {
      assert KeyIndex(Keys[6]) == 6;
      ListRead(g, f.articleBreaks);
    } else {
      assert KeyIndex(Keys[7]) == 7;
      CheckRead(g, f.softYear);
    }
  }

  lemma SavedEntriesE(g: Form, f: Form, k: int)
    requires CleanForm(f) && (k == 8 || k == 9 || k == 10)
    ensures ApplyEntry(g, Keys[k], SavedValues(f)[k]) == CopyField(g, f, k)
  {
    SavedValuesAt(f);
    if k == 8 {
      assert KeyIndex(Keys[8]) == 8;
      CheckRead(g, f.deepSearch);
    } else if k == 9 {
      assert KeyIndex(Keys[9]) == 9;
      ListRead(g, f.searchExclude);
    } else {
      assert KeyIndex(Keys[10]) == 10;
      CheckRead(g, f.alternativeBib);
    }
  }

  /** Folding from entry `k` applies entry `k`, then folds from `k + 1`. */
  lemma EntriesFoldStep(g: Form, keys: seq<string>, values: seq<string>, k: nat)
    requires |keys| == |values| && k < |keys|
    ensures EntriesFold(g, keys[k..], values[k..])
         == EntriesFold(ApplyEntry(g, keys[k], values[k]), keys[k + 1..], values[k + 1..])
  {
    assert keys[k..][0] == keys[k] && keys[k..][1..] == keys[k + 1..];
    assert values[k..][0] == values[k] && values[k..][1..] == values[k + 1..];
  }

  lemma {:induction false} SavedEntriesFrom(g: Form, f: Form, k: nat)
    requires CleanForm(f) && k <= |Keys|
    ensures EntriesFold(g, Keys[k..], SavedValues(f)[k..]) == CopyFrom(g, f, k)
    decreases |Keys| - k
  {
    if k < |Keys| {
      EntriesFoldStep(g, Keys, SavedValues(f), k);
      SavedEntry(g, f, k);
      SavedEntriesFrom(CopyField(g, f, k), f, k + 1);
    }
  }

  lemma WholeSlice(s: seq<string>)
    ensures s[0..] == s
  {
  }

  /** The eleven saved entries, applied in order, set the form's eleven
      fields, whatever it held before. */
  lemma ApplySavedEntries(before: Form, f: Form)
    requires CleanForm(f)
    ensures EntriesFold(before, Keys, SavedValues(f)) == f
  {
    SavedEntriesFrom(before, f, 0);
    WholeSlice(Keys);
    WholeSlice(SavedValues(f));
  }

  /** Loading the text `save_config` writes restores every field of the form,
      whatever the form held before, when no list item holds a quote or a
      line break. */
  lemma SaveLoadRoundTrip(before: Form, f: Form)
    requires CleanForm(f)
    ensures LoadText(before, SaveText(f)) == f
  {
    var lines := SaveLines(f);
    SavedLinesParse(f);
    SplitJoin(lines);
    LoadParsedLines(before, lines, Keys, SavedValues(f));
    ApplySavedEntries(before, f);
  }

  // ---- article_deconstruct_data ----

  /** One article's page range, as the linker reports it. */
  datatype ArticlePair = ArticlePair(first: int, last: int)

  /** `f"{first}:{last}"`. */
  function ArticleText(p: ArticlePair): string {
    IntToString(p.first) + ":" + IntToString(p.last)
  }

  /** What `article_deconstruct_data` returns: one text per pair, in order. */
  function ArticleTexts(data: seq<ArticlePair>): (r: seq<string>)
    ensures |r| == |data| && forall k :: 0 <= k < |data| ==> r[k] == ArticleText(data[k])
  {
    seq(|data|, k requires 0 <= k < |data| => ArticleText(data[k]))
  }

  lemma NoColon(n: int)
    ensures ':' !in IntToString(n)
  {
    var s := IntToString(n);
    if n < 0 {
      assert forall i :: 1 <= i < |s| ==> s[i] == NatToString(-n)[i - 1];
    }
  }

  /** The text of a pair splits at its colon into the two numbers, so it
      determines the pair. */
  lemma ArticleTextReadsBack(p: ArticlePair)
    ensures var parts := SplitFirst(ArticleText(p), ':');
      && parts == Some((IntToString(p.first), IntToString(p.last)))
      && ParseInt(parts.value.0) == Some(p.first) && ParseInt(parts.value.1) == Some(p.last)
  {
    NoColon(p.first);
    var s := ArticleText(p);
    var a := IntToString(p.first);
    assert s[|a|] == ':';
    assert forall i :: 0 <= i < |a| ==> s[i] == a[i];
    assert IndexOf(s, ':') == Some(|a|);
    assert s[..|a|] == a && s[|a| + 1..] == IntToString(p.last);
    ParseIntToString(p.first);
    ParseIntToString(p.last);
  }

  lemma ArticleTextInjective(p: ArticlePair, q: ArticlePair)
    requires ArticleText(p) == ArticleText(q)
    ensures p == q
  {
    ArticleTextReadsBack(p);
    ArticleTextReadsBack(q);
  }

  /** The payload handed to `set_data_from_view` and returned by
      `get_config_data`. */
  datatype ConfigData = ConfigData(articleCache: seq<ArticlePair>, specialCases: seq<string>, delimiters: seq<string>)
}
