/**
 * What the prompt `polish_paper` sends is, proved of the model in
 * module PolishPrompt: every prompt is one numbered list whose last item is
 * the language directive; the requirements keep their order and numbering;
 * the text sits verbatim between prompt and length directive; and the three
 * ways the program fails.
 */
module PromptFacts {
  import opened Wrappers
  import opened Decimal
  import opened PolishPrompt

  predicate EndsWith(s: string, suffix: string) {
    |suffix| <= |s| && s[|s| - |suffix|..] == suffix
  }

  /** A titled numbered list followed by the text marker: the shape every prompt has. */
  function ListPrompt(title: string, items: seq<string>): string
  {
    title + "\n" + NumberedList(items, 1) + "\n" + TextMarker
  }

  /** The title line of each prompt: the preset's, or the custom one for any other type. */
  function PromptTitle(polishType: string): string
  {
    if IsPreset(polishType) then PresetTitle(polishType) else CustomTitle
  }

  /** The requirements a prompt lists before the language directive. */
  function PromptItems(polishType: string, reqs: Option<seq<string>>): seq<string>
  {
    if IsPreset(polishType) then PresetRequirements(polishType)
    else if reqs.Some? then reqs.value
    else []
  }

  /** Numbering splits over concatenation: the second part continues where the first stopped. */
  lemma {:induction false} NumberedListAppend(a: seq<string>, b: seq<string>, start: nat)
    ensures NumberedList(a + b, start) == NumberedList(a, start) + NumberedList(b, start + |a|)
    decreases |a|
  {
    if a == [] {
      assert a + b == b;
    } else {
      assert (a + b)[0] == a[0];
      assert (a + b)[1..] == a[1..] + b;
      NumberedListAppend(a[1..], b, start + 1);
    }
  }

  /**
   * Item j (0-based) of a list is the line "start+j. items[j]", and it
   * begins right after the lines of the items before it.
   */
  lemma NumberedListItemAt(items: seq<string>, start: nat, j: nat)
    requires j < |items|
    ensures var before := NumberedList(items[..j], start);
            var line := Item(start + j, items[j]);
            before + line <= NumberedList(items, start)
  {
    assert items == items[..j] + items[j..];
    NumberedListAppend(items[..j], items[j..], start);
    var rest := items[j..];
    assert rest[0] == items[j] && rest[1..] == items[j + 1..];
    assert NumberedList(rest, start + j) == Item(start + j, items[j]) + NumberedList(items[j + 1..], start + j + 1);
  }

  /** The custom prompt is the list of the requirements followed by the directive. */
  lemma CustomPromptIsNumberedList(reqs: seq<string>, directive: string)
    ensures CustomPrompt(reqs, directive) == ListPrompt(PromptTitle(CustomPolish), reqs + [directive])
  {
    var lines := NumberedList(reqs, 1);
    var last := Item(|reqs| + 1, directive);
    NumberedListSnoc(reqs, directive, 1);
    assert CustomHeader == PromptTitle(CustomPolish) + "\n";
    Assoc(CustomHeader, lines, last);
    AppendItemAt(CustomHeader + lines, |reqs| + 1, directive);
    var body := CustomHeader + lines + NatToDecimal(|reqs| + 1) + ". " + directive;
    Assoc(body, "\n", "\n");
  }

  /** Appending item k appends its number, ". ", the item and a newline. */
  lemma AppendItemAt(prefix: string, k: nat, x: string)
    ensures prefix + Item(k, x) == prefix + NatToDecimal(k) + ". " + x + "\n"
  {
    var number := NatToDecimal(k);
    Assoc(prefix, number + ". " + x, "\n");
    Assoc(prefix, number + ". ", x);
    Assoc(prefix, number, ". ");
  }

  /** Appending item k (a single digit) appends "k. ", the item and a newline. */
  lemma AppendItem(prefix: string, k: nat, x: string, numbering: string)
    requires 1 <= k <= 9 && numbering == [DigitChar(k), '.', ' ']
    ensures prefix + Item(k, x) == prefix + numbering + x + "\n"
  {
    assert NatToDecimal(k) + ". " == numbering;
    AppendItemAt(prefix, k, x);
    Assoc(prefix, NatToDecimal(k), ". ");
  }

  /** The lines of a six-item list, one after another. */
  lemma SixLines(items: seq<string>)
    requires |items| == 6
    ensures NumberedList(items, 1)
         == Item(1, items[0]) + (Item(2, items[1]) + (Item(3, items[2])
          + (Item(4, items[3]) + (Item(5, items[4]) + Item(6, items[5])))))
  {
    assert items[5..][1..] == [] && items[5..][0] == items[5];
    assert items[4..][1..] == items[5..] && items[3..][1..] == items[4..];
    assert items[2..][1..] == items[3..] && items[1..][1..] == items[2..];
    assert NumberedList(items[5..][1..], 7) == "";
    assert NumberedList(items[5..], 6) == Item(6, items[5]) + "" == Item(6, items[5]);
    assert NumberedList(items[4..], 5) == Item(5, items[4]) + NumberedList(items[5..], 6);
    assert NumberedList(items[3..], 4) == Item(4, items[3]) + NumberedList(items[4..], 5);
    assert NumberedList(items[2..], 3) == Item(3, items[2]) + NumberedList(items[3..], 4);
    assert NumberedList(items[1..], 2) == Item(2, items[1]) + NumberedList(items[2..], 3);
  }

  /** A six-item prompt written out line by line. */
  lemma SixItemPrompt(title: string, items: seq<string>)
    requires |items| == 6
    ensures ListPrompt(title, items)
         == title + "\n"
          + "1. " + items[0] + "\n"
          + "2. " + items[1] + "\n"
          + "3. " + items[2] + "\n"
          + "4. " + items[3] + "\n"
          + "5. " + items[4] + "\n"
          + "6. " + items[5] + "\n"
          + "\n"
          + TextMarker
  {
    SixLines(items);
    var i1, i2, i3, i4, i5, i6 := Item(1, items[0]), Item(2, items[1]), Item(3, items[2]),
                                  Item(4, items[3]), Item(5, items[4]), Item(6, items[5]);
    var r5 := i6;
    var r4 := i5 + r5;
    var r3 := i4 + r4;
    var r2 := i3 + r3;
    var r1 := i2 + r2;
    var p0 := title + "\n";
    Assoc(p0, i1, r1);
    AppendItem(p0, 1, items[0], "1. ");
    var p1 := p0 + "1. " + items[0] + "\n";
    Assoc(p1, i2, r2);
    AppendItem(p1, 2, items[1], "2. ");
    var p2 := p1 + "2. " + items[1] + "\n";
    Assoc(p2, i3, r3);
    AppendItem(p2, 3, items[2], "3. ");
    var p3 := p2 + "3. " + items[2] + "\n";
    Assoc(p3, i4, r4);
    AppendItem(p3, 4, items[3], "4. ");
    var p4 := p3 + "4. " + items[3] + "\n";
    Assoc(p4, i5, r5);
    AppendItem(p4, 5, items[4], "5. ");
    var p5 := p4 + "5. " + items[4] + "\n";
    AppendItem(p5, 6, items[5], "6. ");
    assert p0 + NumberedList(items, 1) == p5 + "6. " + items[5] + "\n";
  }

  /** Each preset template is its title, its five fixed requirements and the directive as item 6. */
  lemma PresetTemplateIsNumberedList(polishType: string, directive: string)
    requires IsPreset(polishType)
    ensures PresetTemplate(polishType, directive)
         == Some(ListPrompt(PresetTitle(polishType), PresetRequirements(polishType) + [directive]))
  {
    var fixed := PresetRequirements(polishType);
    var items := fixed + [directive];
    SixItemPrompt(PresetTitle(polishType), items);
    assert items[0] == fixed[0] && items[1] == fixed[1] && items[2] == fixed[2];
    assert items[3] == fixed[3] && items[4] == fixed[4] && items[5] == directive;
  }

  /**
   * Every prompt is a numbered list: the requirements (fixed or the caller's)
   * in order from 1, then the language directive as the last item.
   */
  lemma PromptIsNumberedList(polishType: string, language: string, reqs: Option<seq<string>>)
    requires SelectPrompt(polishType, language, reqs).Ok?
    ensures LanguageDirective(language).Some?
    ensures SelectPrompt(polishType, language, reqs).value
         == ListPrompt(PromptTitle(polishType), PromptItems(polishType, reqs) + [LanguageDirective(language).value])
  {
    var directive := LanguageDirective(language).value;
    if polishType == CustomPolish && HasRequirements(reqs) {
      CustomPromptIsNumberedList(reqs.value, directive);
    } else {
      PresetTemplateIsNumberedList(polishType, directive);
    }
  }

  lemma EndsWithConcat(a: string, b: string)
    ensures EndsWith(a + b, b)
  {
    assert (a + b)[|a|..] == b;
  }

  /** The last item of a list prompt is followed only by the text marker. */
  lemma ListPromptLastItem(title: string, items: seq<string>, x: string)
    ensures EndsWith(ListPrompt(title, items + [x]), Item(|items| + 1, x) + "\n" + TextMarker)
  {
    NumberedListSnoc(items, x, 1);
    var head := title + "\n" + NumberedList(items, 1);
    var last := Item(|items| + 1, x) + "\n" + TextMarker;
    assert ListPrompt(title, items + [x]) == head + last;
    EndsWithConcat(head, last);
  }

  /** The language directive is item number (requirements + 1), the last line before the text marker. */
  lemma DirectiveIsLastItem(polishType: string, language: string, reqs: Option<seq<string>>)
    requires SelectPrompt(polishType, language, reqs).Ok?
    ensures var prompt := SelectPrompt(polishType, language, reqs).value;
            var last := Item(|PromptItems(polishType, reqs)| + 1, LanguageDirective(language).value) + "\n" + TextMarker;
            EndsWith(prompt, last)
  {
    PromptIsNumberedList(polishType, language, reqs);
    ListPromptLastItem(PromptTitle(polishType), PromptItems(polishType, reqs), LanguageDirective(language).value);
  }

  /** Every prompt ends with the text marker, so the text follows it immediately. */
  lemma PromptEndsWithTextMarker(polishType: string, language: string, reqs: Option<seq<string>>)
    requires SelectPrompt(polishType, language, reqs).Ok?
    ensures var prompt := SelectPrompt(polishType, language, reqs).value;
            EndsWith(prompt, TextMarker)
  {
    PromptIsNumberedList(polishType, language, reqs);
  }

  lemma PrefixUnderHeader(header: string, a: string, b: string)
    requires a <= b
    ensures header + a <= header + b
  {
    assert (header + b)[..|header + a|] == header + b[..|a|];
  }

  /** A custom prompt with requirements starts with the custom header. */
  lemma CustomPromptStartsWithHeader(language: string, reqs: seq<string>)
    requires |reqs| > 0 && LanguageDirective(language).Some?
    ensures SelectPrompt(CustomPolish, language, Some(reqs)).Ok?
    ensures var prompt := SelectPrompt(CustomPolish, language, Some(reqs)).value;
            CustomHeader <= prompt
  {
  }

  /**
   * Requirement j of a custom prompt is the line "j+1. reqs[j]", verbatim,
   * right after the header and the lines of the requirements before it.
   */
  lemma CustomRequirementAt(language: string, reqs: seq<string>, j: nat)
    requires j < |reqs| && LanguageDirective(language).Some?
    ensures SelectPrompt(CustomPolish, language, Some(reqs)).Ok?
    ensures var prompt := SelectPrompt(CustomPolish, language, Some(reqs)).value;
            var before := CustomHeader + NumberedList(reqs[..j], 1);
            var line := Item(j + 1, reqs[j]);
            before + line <= prompt
  {
    var directive := LanguageDirective(language).value;
    var lines := NumberedList(reqs, 1);
    var prompt := CustomPrompt(reqs, directive);
    assert SelectPrompt(CustomPolish, language, Some(reqs)) == Ok(prompt);
    var before := NumberedList(reqs[..j], 1);
    var line := Item(j + 1, reqs[j]);
    NumberedListItemAt(reqs, 1, j);
    PrefixUnderHeader(CustomHeader, before + line, lines);
    Assoc(CustomHeader, before, line);
    assert prompt == CustomHeader + lines + NatToDecimal(|reqs| + 1) + ". " + directive + "\n\n" + TextMarker;
  }

  /** A preset prompt does not depend on the requirement list at all. */
  lemma PresetIgnoresRequirements(text: string, polishType: string, language: string, maxLength: int,
                                  reqs1: Option<seq<string>>, reqs2: Option<seq<string>>)
    requires IsPreset(polishType)
    ensures BuildPolishPrompt(text, polishType, language, maxLength, reqs1)
         == BuildPolishPrompt(text, polishType, language, maxLength, reqs2)
  {
  }

  /**
   * The three ways assembly fails, and nothing else: an unknown language
   * (reported first), then a type that is neither preset nor custom with a
   * non-empty requirement list.
   */
  lemma FailureCases(text: string, polishType: string, language: string, maxLength: int, reqs: Option<seq<string>>)
    ensures var r := BuildPolishPrompt(text, polishType, language, maxLength, reqs);
            r.Err? <==> LanguageDirective(language).None?
                        || (!IsPreset(polishType) && !(polishType == CustomPolish && HasRequirements(reqs)))
    ensures var r := BuildPolishPrompt(text, polishType, language, maxLength, reqs);
            r.Err? ==> r.error == if LanguageDirective(language).None? then KeyError(language) else KeyError(polishType)
  {
  }

  /** The custom type with no requirements (None or empty) fails on the type, as it is not a template key. */
  lemma CustomWithoutRequirementsFails(text: string, language: string, maxLength: int, reqs: Option<seq<string>>)
    requires !HasRequirements(reqs) && LanguageDirective(language).Some?
    ensures BuildPolishPrompt(text, CustomPolish, language, maxLength, reqs) == Err(KeyError(CustomPolish))
  {
  }

  /**
   * The string sent is the prompt, then the text verbatim, then the length
   * directive; the prompt part is the same whatever the text and length.
   */
  lemma SentStringLayout(text: string, polishType: string, language: string, maxLength: int, reqs: Option<seq<string>>)
    requires BuildPolishPrompt(text, polishType, language, maxLength, reqs).Ok?
    ensures SelectPrompt(polishType, language, reqs).Ok?
    ensures var sent := BuildPolishPrompt(text, polishType, language, maxLength, reqs).value;
            var prompt := SelectPrompt(polishType, language, reqs).value;
            var tail := LengthDirective(maxLength);
            && |sent| == |prompt| + |text| + |tail|
            && sent[..|prompt|] == prompt
            && sent[|prompt|..|prompt| + |text|] == text
            && sent[|prompt| + |text|..] == tail
  {
  }

  /** Whether assembly fails, and how, does not depend on the text or the maximum length. */
  lemma OutcomeIndependentOfTextAndLength(text1: string, text2: string, maxLength1: int, maxLength2: int,
                                          polishType: string, language: string, reqs: Option<seq<string>>)
    ensures BuildPolishPrompt(text1, polishType, language, maxLength1, reqs).Ok?
        <==> BuildPolishPrompt(text2, polishType, language, maxLength2, reqs).Ok?
    ensures BuildPolishPrompt(text1, polishType, language, maxLength1, reqs).Err?
            ==> BuildPolishPrompt(text1, polishType, language, maxLength1, reqs).error
                == BuildPolishPrompt(text2, polishType, language, maxLength2, reqs).error
  {
  }

  predicate IsNumeralChar(c: char) {
    IsDigit(c) || c == '-'
  }

  /** How many characters at the end of `s` are digits or '-'. */
  function TrailingNumeralLength(s: string): nat
  {
    if s == [] || !IsNumeralChar(s[|s| - 1]) then 0 else 1 + TrailingNumeralLength(s[..|s| - 1])
  }

  /** After a non-numeral character, a numeral is exactly the trailing run of numeral characters. */
  lemma {:induction false} TrailingNumeralOfSplit(x: string, d: string)
    requires |x| > 0 && !IsNumeralChar(x[|x| - 1])
    requires forall k :: 0 <= k < |d| ==> IsNumeralChar(d[k])
    ensures TrailingNumeralLength(x + d) == |d|
    decreases |d|
  {
    if d == [] {
      assert x + d == x;
    } else {
      var d' := d[..|d| - 1];
      assert (x + d)[..|x + d| - 1] == x + d';
      TrailingNumeralOfSplit(x, d');
    }
  }

  /** Two strings ending in a non-numeral character, each followed by a numeral, split the same way. */
  lemma NumeralSplitUnique(x: string, d: string, y: string, e: string)
    requires x + d == y + e
    requires |x| > 0 && !IsNumeralChar(x[|x| - 1]) && |y| > 0 && !IsNumeralChar(y[|y| - 1])
    requires forall k :: 0 <= k < |d| ==> IsNumeralChar(d[k])
    requires forall k :: 0 <= k < |e| ==> IsNumeralChar(e[k])
    ensures x == y && d == e
  {
    TrailingNumeralOfSplit(x, d);
    TrailingNumeralOfSplit(y, e);
    assert x == (x + d)[..|x|] && y == (y + e)[..|y|];
    assert d == (x + d)[|x|..] && e == (y + e)[|y|..];
  }

  /** Behind a fixed prompt, text and length directive can be told apart: both are read back. */
  lemma TextAndLengthReadBack(prompt: string, text1: string, text2: string, maxLength1: int, maxLength2: int)
    requires prompt + text1 + LengthDirective(maxLength1) == prompt + text2 + LengthDirective(maxLength2)
    ensures text1 == text2 && maxLength1 == maxLength2
  {
    var d1, d2 := IntToDecimal(maxLength1), IntToDecimal(maxLength2);
    var x, y := prompt + text1 + LengthPrefix, prompt + text2 + LengthPrefix;
    var sent := prompt + text1 + LengthDirective(maxLength1);
    assert sent == x + d1 + LengthSuffix;
    assert sent == y + d2 + LengthSuffix;
    assert x + d1 == sent[..|sent| - |LengthSuffix|] == y + d2;
    assert x[|x| - 1] == '过' == y[|y| - 1];
    NumeralSplitUnique(x, d1, y, d2);
    IntToDecimalInjective(maxLength1, maxLength2);
    assert prompt + text1 == x[..|x| - |LengthPrefix|] == prompt + text2;
    assert text1 == (prompt + text1)[|prompt|..];
    assert text2 == (prompt + text2)[|prompt|..];
  }

  /**
   * With the same type, language and requirements, the string sent determines
   * the text and the maximum length: both can be read back from it.
   */
  lemma SentStringDeterminesTextAndLength(text1: string, text2: string, maxLength1: int, maxLength2: int,
                                          polishType: string, language: string, reqs: Option<seq<string>>)
    requires BuildPolishPrompt(text1, polishType, language, maxLength1, reqs).Ok?
    requires BuildPolishPrompt(text1, polishType, language, maxLength1, reqs)
          == BuildPolishPrompt(text2, polishType, language, maxLength2, reqs)
    ensures text1 == text2 && maxLength1 == maxLength2
  {
    var prompt := SelectPrompt(polishType, language, reqs).value;
    TextAndLengthReadBack(prompt, text1, text2, maxLength1, maxLength2);
  }

  /** A custom prompt with two requirements, written out line by line. */
  lemma TwoRequirementPrompt(a: string, b: string, directive: string)
    ensures CustomPrompt([a, b], directive)
         == CustomHeader
          + "1. " + a + "\n"
          + "2. " + b + "\n"
          + "3. " + directive + "\n\n"
          + TextMarker
  {
    var reqs := [a, b];
    assert reqs[1..][1..] == [] && reqs[1..][0] == b;
    assert NumberedList(reqs[1..][1..], 3) == "";
    var i1, i2 := Item(1, a), Item(2, b);
    assert NumberedList(reqs, 1) == i1 + (i2 + "") == i1 + i2;
    Assoc(CustomHeader, i1, i2);
    AppendItem(CustomHeader, 1, a, "1. ");
    var p1 := CustomHeader + "1. " + a + "\n";
    AppendItem(p1, 2, b, "2. ");
    var p2 := p1 + "2. " + b + "\n";
    assert NatToDecimal(3) == "3";
    Assoc(p2, "3", ". ");
  }

  lemma ExampleLength()
    ensures LengthDirective(500) == "\n\n请确保润色后的文本不超过500字。"
  {
    assert NatToDecimal(500) == NatToDecimal(50) + "0" == NatToDecimal(5) + "0" + "0" == "500";
  }

  /** The custom example with two requirements, Chinese output and a limit of 500 characters. */
  lemma CustomExample(text: string)
    ensures BuildPolishPrompt(text, CustomPolish, Chinese, 500, Some(["提高学术性", "改善语法"]))
         == Ok("请对以下文本进行润色，要求：\n"
               + "1. " + "提高学术性" + "\n"
               + "2. " + "改善语法" + "\n"
               + "3. " + "请用中文回复。" + "\n\n"
               + "文本内容："
               + text
               + "\n\n请确保润色后的文本不超过500字。")
  {
    assert CustomHeader == "请对以下文本进行润色，要求：\n";
    TwoRequirementPrompt("提高学术性", "改善语法", "请用中文回复。");
    ExampleLength();
  }
}
