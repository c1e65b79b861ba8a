/** The document configuration panel (QtApp/src/qtapp/components/DocConfig.py)
    as a stateful object: four list widgets (module ListWidget), four check
    boxes, three combo boxes, and the slots that load, save, clear and fill
    them. Each method is proved against the text-level definitions of module
    ConfigCodec. File contents are parameters. */
module ConfigEditor {
  import opened Outcomes
  import opened PyText
  import opened ConfigCodec
  import opened ListWidget

  // ---- the panel ----

  /** The form right after `init_ui`: unchecked boxes, empty lists, and the
      first item of each combo box. */
  const InitialForm := Form(false, [], [], 0, 0, 0, [], false, false, [], false)

  class DocConfig {
    const specialCaseList: ListField
    const delimiterList: ListField
    const articleBreaksList: ListField
    const searchExcludeList: ListField
    var debugCheck: bool
    var softYearCheck: bool
    var deepSearchCheck: bool
    var alternativeBibCheck: bool
    var annotTypeIndex: int
    var colorIndex: int
    var offsetIndex: int
    /** The OFFSET combo's items (each item's data equals its text). */
    const offsetItems: seq<string>
    /** The values `set_data_from_view` keeps. */
    var specialCases: seq<string>
    var delimiters: seq<string>
    var articleCache: seq<ArticlePair>

    /** What the widgets show, as one value. */
    function Form(): Form
      reads this, specialCaseList, delimiterList, articleBreaksList, searchExcludeList
    {
      ConfigCodec.Form(debugCheck, specialCaseList.items, delimiterList.items, annotTypeIndex, colorIndex,
        offsetIndex, articleBreaksList.items, softYearCheck, deepSearchCheck, searchExcludeList.items,
        alternativeBibCheck)
    }

    /** The four list widgets are distinct objects, each with a valid
        current row. */
    predicate ListsValid()
      reads specialCaseList, delimiterList, articleBreaksList, searchExcludeList
    {
      && specialCaseList != delimiterList && specialCaseList != articleBreaksList
      && specialCaseList != searchExcludeList && delimiterList != articleBreaksList
      && delimiterList != searchExcludeList && articleBreaksList != searchExcludeList
      && specialCaseList.Valid() && delimiterList.Valid()
      && articleBreaksList.Valid() && searchExcludeList.Valid()
    }

    /** Each combo box has a current item. */
    predicate Valid()
      reads this, specialCaseList, delimiterList, articleBreaksList, searchExcludeList
    {
      && ListsValid()
      && offsetItems == OffsetItems
      && 0 <= annotTypeIndex < |AnnotTypeItems| && 0 <= colorIndex < |ColorItems|
      && 0 <= offsetIndex < |offsetItems|
    }

    /** `__init__` and `init_ui`, without reading a config file: the OFFSET
        combo gets an empty item and then one item per value of
        `range(-10, 11)` other than zero. */
    constructor ()
      ensures Valid() && Form() == InitialForm
      ensures fresh(specialCaseList) && fresh(delimiterList) && fresh(articleBreaksList) && fresh(searchExcludeList)
      ensures specialCases == [] && delimiters == [] && articleCache == []
    {
      specialCaseList := new ListField();
      delimiterList := new ListField();
      articleBreaksList := new ListField();
      searchExcludeList := new ListField();
      debugCheck, softYearCheck, deepSearchCheck, alternativeBibCheck := false, false, false, false;
      annotTypeIndex, colorIndex, offsetIndex := 0, 0, 0;
      specialCases, delimiters, articleCache := [], [], [];
      var items := [""];
      for i := -10 to 11
        invariant items == [""] + OffsetLabels(i + 10)
      {
        if i > 0 {
          items := items + ["+" + IntToString(i)];
        } else if i < 0 {
          items := items + [IntToString(i)];
        }
      }
      OffsetItemsBuilt();
      offsetItems := items;
    }

    /** One parsed entry of `load_config`: the key selects the widget, a
        list is cleared and refilled, a combo box moves only to a value it
        offers. */
    method LoadEntry(key: string, value: string)
      requires Valid()
      modifies this, specialCaseList, delimiterList, articleBreaksList, searchExcludeList
      ensures Form() == ApplyEntry(old(Form()), key, value) && Valid()
      ensures specialCases == old(specialCases)
      ensures delimiters == old(delimiters) && articleCache == old(articleCache)
    {
      if key == "DEBUG" || key == "SOFT_YEAR" || key == "DEEP_SEARCH" || key == "ALTERNATIVE_BIB" {
        LoadCheckEntry(key, value);
      } else if key == "SPECIAL_CASE" {
        LoadSpecialCase(value);
      } else if key == "BIBLIOGRAPHY_DELIMITER" {
        LoadDelimiter(value);
      } else if key == "ARTICLE_BREAKS" {
        LoadArticleBreaks(value);
      } else if key == "SEARCH_EXCLUDE" {
        LoadSearchExclude(value);
      } else if key == "ANNOT_TYPE" {
        LoadAnnotType(value);
      } else if key == "COLOR" {
        LoadColor(value);
      } else if key == "OFFSET" {
        LoadOffset(value);
      }
    }

    /** The check-box branches of `load_config`. */
    method LoadCheckEntry(key: string, value: string)
      requires Valid()
      requires key == "DEBUG" || key == "SOFT_YEAR" || key == "DEEP_SEARCH" || key == "ALTERNATIVE_BIB"
      modifies this
      ensures Form() == ApplyEntry(old(Form()), key, value) && Valid()
      ensures specialCases == old(specialCases)
      ensures delimiters == old(delimiters) && articleCache == old(articleCache)
    {
      KeyIndexes();
      var checked := LowerAscii(value) == "true";
      if key == "DEBUG" {
        debugCheck := checked;
      } else if key == "SOFT_YEAR" {
        softYearCheck := checked;
      } else if key == "DEEP_SEARCH" {
        deepSearchCheck := checked;
      } else {
        alternativeBibCheck := checked;
      }
    }

    /** The SPECIAL_CASE branch of `load_config`: the list is cleared and
        refilled with the parsed items. */
    method LoadSpecialCase(value: string)
      requires Valid()
      modifies specialCaseList
      ensures Form() == ApplyEntry(old(Form()), "SPECIAL_CASE", value) && Valid()
    {
      KeyIndexes();
      var items := ParseListValue(value);
      specialCaseList.Refill(items);
    }

    /** The BIBLIOGRAPHY_DELIMITER branch of `load_config`: the list is cleared and
        refilled with the parsed items. */
    method LoadDelimiter(value: string)
      requires Valid()
      modifies delimiterList
      ensures Form() == ApplyEntry(old(Form()), "BIBLIOGRAPHY_DELIMITER", value) && Valid()
    {
      KeyIndexes();
      var items := ParseListValue(value);
      delimiterList.Refill(items);
    }

    /** The ARTICLE_BREAKS branch of `load_config`: the list is cleared and
        refilled with the parsed items. */
    method LoadArticleBreaks(value: string)
      requires Valid()
      modifies articleBreaksList
      ensures Form() == ApplyEntry(old(Form()), "ARTICLE_BREAKS", value) && Valid()
    {
      KeyIndexes();
      var items := ParseListValue(value);
      articleBreaksList.Refill(items);
    }

    /** The SEARCH_EXCLUDE branch of `load_config`: the list is cleared and
        refilled with the parsed items. */
    method LoadSearchExclude(value: string)
      requires Valid()
      modifies searchExcludeList
      ensures Form() == ApplyEntry(old(Form()), "SEARCH_EXCLUDE", value) && Valid()
    {
      KeyIndexes();
      var items := ParseListValue(value);
      searchExcludeList.Refill(items);
    }

    /** The ANNOT_TYPE branch of `load_config`: the combo box moves to the
        index `findText` gives, unless that is -1. */
    method LoadAnnotType(value: string)
      requires Valid()
      modifies this
      ensures Form() == ApplyEntry(old(Form()), "ANNOT_TYPE", value) && Valid()
      ensures specialCases == old(specialCases)
      ensures delimiters == old(delimiters) && articleCache == old(articleCache)
    {
      KeyIndexes();
      var idx := FindItem(AnnotTypeItems, value);
      if idx >= 0 {
        annotTypeIndex := idx;
      }
    }

    /** The COLOR branch of `load_config`: the combo box moves to the
        index `findText` gives, unless that is -1. */
    method LoadColor(value: string)
      requires Valid()
      modifies this
      ensures Form() == ApplyEntry(old(Form()), "COLOR", value) && Valid()
      ensures specialCases == old(specialCases)
      ensures delimiters == old(delimiters) && articleCache == old(articleCache)
    {
      KeyIndexes();
      var idx := FindItem(ColorItems, value);
      if idx >= 0 {
        colorIndex := idx;
      }
    }

    /** The OFFSET branch of `load_config`: the combo box moves to the
        index `findData` gives, unless that is -1. */
    method LoadOffset(value: string)
      requires Valid()
      modifies this
      ensures Form() == ApplyEntry(old(Form()), "OFFSET", value) && Valid()
      ensures specialCases == old(specialCases)
      ensures delimiters == old(delimiters) && articleCache == old(articleCache)
    {
      KeyIndexes();
      var idx := FindItem(offsetItems, value);
      if idx >= 0 {
        offsetIndex := idx;
      }
    }

    /** `load_config` on the text of the file, line by line. */
    method LoadConfig(text: string)
      requires Valid()
      modifies this, specialCaseList, delimiterList, articleBreaksList, searchExcludeList
      ensures Valid() && Form() == LoadText(old(Form()), text)
      ensures specialCases == old(specialCases)
      ensures delimiters == old(delimiters) && articleCache == old(articleCache)
    {
      var lines := SplitLines(text);
      ghost var start := Form();
      var i := 0;
      while i < |lines|
        invariant 0 <= i <= |lines|
        invariant Valid() && Form() == LoadLines(start, lines[..i])
        invariant specialCases == old(specialCases)
        invariant delimiters == old(delimiters) && articleCache == old(articleCache)
      {
        LoadLinesStep(start, lines, i);
        LoadLine(lines[i]);
        i := i + 1;
      }
      assert lines[..i] == lines;
    }

    /** One line of `load_config`: a line that does not parse, and the
        empty key, are skipped. */
    method LoadLine(line: string)
      requires Valid()
      modifies this, specialCaseList, delimiterList, articleBreaksList, searchExcludeList
      ensures Valid() && Form() == ApplyLine(old(Form()), line)
      ensures specialCases == old(specialCases)
      ensures delimiters == old(delimiters) && articleCache == old(articleCache)
    {
      match ParseConfigLine(line) {
        case None =>
        case Some((key, value)) =>
          ApplyParsedLine(Form(), line, key, value);
          if key != [] {
            LoadEntry(key, value);
          } else {
            EmptyKeyIgnored(Form(), value);
          }
      }
    }

    /** `format_list_value`: each item in quotes, joined by ", ". */
    static method FormatListValue(list: ListField) returns (text: string)
      ensures text == FormatList(list.items)
    {
      var quoted: seq<string> := [];
      var i := 0;
      while i < |list.items|
        invariant 0 <= i <= |list.items|
        invariant quoted == QuoteAll(list.items[..i])
      {
        quoted := quoted + ["\"" + list.items[i] + "\""];
        i := i + 1;
      }
      assert list.items[..i] == list.items;
      text := if quoted != [] then Join(", ", quoted) else "";
    }

    /** `save_config`: the text written to the file. */
    method SaveConfig() returns (text: string)
      requires Valid()
      ensures text == SaveText(Form())
    {
      var lines: seq<string> := [];
      lines := lines + [Line("DEBUG", BoolText(debugCheck))];
      var specialCase := FormatListValue(specialCaseList);
      lines := lines + [Line("SPECIAL_CASE", specialCase)];
      var delimiter := FormatListValue(delimiterList);
      lines := lines + [Line("BIBLIOGRAPHY_DELIMITER", delimiter)];
      lines := lines + [Line("ANNOT_TYPE", AnnotTypeItems[annotTypeIndex])];
      lines := lines + [Line("COLOR", ColorItems[colorIndex])];
      lines := lines + [Line("OFFSET", offsetItems[offsetIndex])];
      var articleBreaks := FormatListValue(articleBreaksList);
      lines := lines + [Line("ARTICLE_BREAKS", articleBreaks)];
      lines := lines + [Line("SOFT_YEAR", BoolText(softYearCheck))];
      lines := lines + [Line("DEEP_SEARCH", BoolText(deepSearchCheck))];
      var searchExclude := FormatListValue(searchExcludeList);
      lines := lines + [Line("SEARCH_EXCLUDE", searchExclude)];
      lines := lines + [Line("ALTERNATIVE_BIB", BoolText(alternativeBibCheck))];
      SaveLinesAre(Form(), lines);
      text := Join("\n", lines);
    }

    /** `clear_all_fields`. */
    method ClearAllFields()
      requires Valid()
      modifies this, specialCaseList, delimiterList, articleBreaksList, searchExcludeList
      ensures Valid() && Form() == InitialForm
      ensures specialCases == old(specialCases)
      ensures delimiters == old(delimiters) && articleCache == old(articleCache)
    {
      debugCheck, softYearCheck, deepSearchCheck, alternativeBibCheck := false, false, false, false;
      annotTypeIndex, colorIndex, offsetIndex := 0, 0, 0;
      ClearLists();
    }

    /** The four `clear` calls of `clear_all_fields`. */
    method ClearLists()
      requires ListsValid()
      modifies specialCaseList, delimiterList, articleBreaksList, searchExcludeList
      ensures ListsValid()
      ensures specialCaseList.items == [] && delimiterList.items == []
      ensures articleBreaksList.items == [] && searchExcludeList.items == []
    {
      specialCaseList.Clear();
      delimiterList.Clear();
      articleBreaksList.Clear();
      searchExcludeList.Clear();
    }

    /** `article_deconstruct_data`. */
    static method ArticleDeconstructData(data: seq<ArticlePair>) returns (fullList: seq<string>)
      ensures fullList == ArticleTexts(data)
    {
      fullList := [];
      for i := 0 to |data|
        invariant fullList == ArticleTexts(data[..i])
      {
        fullList := fullList + [IntToString(data[i].first) + ":" + IntToString(data[i].last)];
      }
      assert data[..|data|] == data;
    }

    /** `set_data_from_view`: each non-empty list of the payload replaces the
        kept value and the matching list widget's items; nothing happens
        without a payload. */
    method SetDataFromView(configData: Option<ConfigData>)
      requires Valid()
      modifies this, specialCaseList, delimiterList, articleBreaksList, searchExcludeList
      ensures Valid()
      ensures configData.None? ==>
        (Form() == old(Form()) && specialCases == old(specialCases)
         && delimiters == old(delimiters) && articleCache == old(articleCache))
      ensures configData.Some? ==> var d := configData.value;
        && articleCache == (if d.articleCache != [] then d.articleCache else old(articleCache))
        && specialCases == (if d.specialCases != [] then d.specialCases else old(specialCases))
        && delimiters == (if d.delimiters != [] then d.delimiters else old(delimiters))
        && Form() == old(Form()).(
             articleBreaks := if d.articleCache != [] then ArticleTexts(d.articleCache) else old(Form()).articleBreaks,
             specialCase := if d.specialCases != [] then d.specialCases else old(Form()).specialCase,
             delimiter := if d.delimiters != [] then d.delimiters else old(Form()).delimiter)
    {
      if configData.Some? {
        var d := configData.value;
        if d.articleCache != [] {
          articleCache := d.articleCache;
          var articleList := ArticleDeconstructData(articleCache);
          articleBreaksList.Refill(articleList);
        }
        if d.specialCases != [] {
          specialCases := d.specialCases;
          specialCaseList.Refill(specialCases);
        }
        if d.delimiters != [] {
          delimiters := d.delimiters;
          delimiterList.Refill(delimiters);
        }
      }
    }
  }

  /** The lines `save_config` appends one by one are the eleven lines of
      `SaveLines`. */
  lemma SaveLinesAre(f: Form, lines: seq<string>)
    requires ValidForm(f)
    requires lines == [] + [Line("DEBUG", BoolText(f.debug))] + [Line("SPECIAL_CASE", FormatList(f.specialCase))]
      + [Line("BIBLIOGRAPHY_DELIMITER", FormatList(f.delimiter))] + [Line("ANNOT_TYPE", AnnotTypeItems[f.annotType])]
      + [Line("COLOR", ColorItems[f.color])] + [Line("OFFSET", OffsetItems[f.offset])]
      + [Line("ARTICLE_BREAKS", FormatList(f.articleBreaks))] + [Line("SOFT_YEAR", BoolText(f.softYear))]
      + [Line("DEEP_SEARCH", BoolText(f.deepSearch))] + [Line("SEARCH_EXCLUDE", FormatList(f.searchExclude))]
      + [Line("ALTERNATIVE_BIB", BoolText(f.alternativeBib))]
    ensures lines == SaveLines(f)
  {
    var vs := SavedValues(f);
    var expected := [Line(Keys[0], vs[0]), Line(Keys[1], vs[1]), Line(Keys[2], vs[2]), Line(Keys[3], vs[3]),
      Line(Keys[4], vs[4]), Line(Keys[5], vs[5]), Line(Keys[6], vs[6]), Line(Keys[7], vs[7]),
      Line(Keys[8], vs[8]), Line(Keys[9], vs[9]), Line(Keys[10], vs[10])];
    assert lines == expected;
    assert SaveLines(f) == expected;
  }
}
