/**
 * The prompt that `polish_paper` hands to the language model: a language
 * directive chosen by output language, a numbered list of requirements (built
 * from the caller's own requirements for the custom type, a fixed template for
 * the three preset types), the user's text, and a length directive.
 *
 * Polishing type and output language stay strings, as in the program, so that
 * a lookup that fails can report the very key it failed on (Python's KeyError).
 */
module PolishPrompt {
  import opened Wrappers
  import opened Decimal

  /** The only failure prompt assembly has: a dictionary lookup on a missing key. */
  datatype Error = KeyError(key: string)

  // Output languages offered to the user.
  const Chinese := "中文"
  const English := "英文"
  const Bilingual := "中英对照"

  // Polishing types; the first three have a fixed template.
  const AcademicPolish := "学术润色"
  const GrammarFix := "语法修改"
  const LightPolish := "简单润色"
  const CustomPolish := "自定义润色"

  /** What every prompt ends with, immediately before the user's text. */
  const TextMarker := "文本内容："

  /** Title of a prompt built from the caller's own requirements. */
  const CustomTitle := "请对以下文本进行润色，要求："

  /** First line of a prompt built from the caller's own requirements. */
  const CustomHeader := CustomTitle + "\n"

  // The length directive is LengthPrefix, the decimal maximum length, LengthSuffix.
  const LengthPrefix := "\n\n请确保润色后的文本不超过"
  const LengthSuffix := "字。"

  /** The sentence asking for the chosen output language; None for a language the table lacks. */
  function LanguageDirective(language: string): Option<string>
  {
    if language == Chinese then Some("请用中文回复。")
    else if language == English then Some("Please respond in English.")
    else if language == Bilingual then Some("请同时用中文和英文回复，先中文后英文。")
    else None
  }

  predicate IsPreset(polishType: string) {
    polishType == AcademicPolish || polishType == GrammarFix || polishType == LightPolish
  }

  /** The first line of a preset template. */
  function PresetTitle(polishType: string): string
    requires IsPreset(polishType)
  {
    if polishType == AcademicPolish then "请作为一位资深学术论文编辑，对以下文本进行学术性润色。要求："
    else if polishType == GrammarFix then "请对以下文本进行语法优化和改进。要求："
    else "请对以下文本进行基础润色。要求："
  }

  /** The five fixed requirements of a preset template, in order. */
  function PresetRequirements(polishType: string): (fixed: seq<string>)
    requires IsPreset(polishType)
    ensures |fixed| == 5
  {
    if polishType == AcademicPolish then
      ["提升学术性表达", "确保专业术语使用准确", "保持学术写作风格", "改善句子结构使其更符合学术论文标准", "保持原意的同时提升表达的专业性"]
    else if polishType == GrammarFix then
      ["纠正语法错误", "改善句子结构", "确保时态一致性", "优化标点符号使用", "保持原意不变"]
    else
      ["改善表达流畅度", "优化用词", "提升可读性", "保持语言简洁", "不改变原始含义"]
  }

  /** The template of a preset type, line by line, with `directive` as its sixth item; None for any other type. */
  function PresetTemplate(polishType: string, directive: string): Option<string>
  {
    if !IsPreset(polishType) then None
    else
      var fixed := PresetRequirements(polishType);
      Some(PresetTitle(polishType) + "\n"
           + "1. " + fixed[0] + "\n"
           + "2. " + fixed[1] + "\n"
           + "3. " + fixed[2] + "\n"
           + "4. " + fixed[3] + "\n"
           + "5. " + fixed[4] + "\n"
           + "6. " + directive + "\n"
           + "\n"
           + TextMarker)
  }

  /** One line of a numbered list: "k. s" and a newline. */
  function Item(k: nat, s: string): string
  {
    NatToDecimal(k) + ". " + s + "\n"
  }

  /** The lines of `items`, numbered from `start` upwards in input order. */
  function NumberedList(items: seq<string>, start: nat): string
  {
    if items == [] then "" else Item(start, items[0]) + NumberedList(items[1..], start + 1)
  }

  /** The prompt for the custom type: header, requirements 1..n, the language directive as item n+1. */
  function CustomPrompt(reqs: seq<string>, directive: string): string
  {
    CustomHeader + NumberedList(reqs, 1) + NatToDecimal(|reqs| + 1) + ". " + directive + "\n\n" + TextMarker
  }

  /** The custom prompt as the program builds it: an accumulator extended line by line. */
  method BuildCustomPrompt(reqs: seq<string>, directive: string) returns (prompt: string)
    ensures prompt == CustomPrompt(reqs, directive)
  {
    prompt := CustomHeader;
    for i := 0 to |reqs|
      invariant prompt == CustomHeader + NumberedList(reqs[..i], 1)
    {
      NumberedListSnoc(reqs[..i], reqs[i], 1);
      assert reqs[..i + 1] == reqs[..i] + [reqs[i]];
      prompt := prompt + Item(i + 1, reqs[i]);
    }
    assert reqs[..|reqs|] == reqs;
    prompt := prompt + NatToDecimal(|reqs| + 1) + ". " + directive + "\n\n" + TextMarker;
  }

  /** Extending a list by one item adds one line, numbered after the others. */
  lemma {:induction false} NumberedListSnoc(items: seq<string>, x: string, start: nat)
    ensures NumberedList(items + [x], start) == NumberedList(items, start) + Item(start + |items|, x)
    decreases |items|
  {
    if items == [] {
      assert [x][1..] == [];
    } else {
      var head, rest := Item(start, items[0]), NumberedList(items[1..], start + 1);
      var last := Item(start + |items|, x);
      assert (items + [x])[0] == items[0] && (items + [x])[1..] == items[1..] + [x];
      NumberedListSnoc(items[1..], x, start + 1);
      assert NumberedList(items + [x], start) == head + (rest + last);
      Assoc(head, rest, last);
    }
  }

  lemma Assoc(a: string, b: string, c: string)
    ensures a + (b + c) == (a + b) + c
  {
  }

  /** Python truthiness of the requirement list: None and the empty list are both false. */
  predicate HasRequirements(reqs: Option<seq<string>>) {
    reqs.Some? && |reqs.value| > 0
  }

  /**
   * The prompt part: everything before the user's text.  An unknown language
   * fails first in both branches (the preset dictionary evaluates every
   * template, and so the language lookup, before it is indexed by type).
   */
  function SelectPrompt(polishType: string, language: string, reqs: Option<seq<string>>): Result<string, Error>
  {
    var directive := LanguageDirective(language);
    if polishType == CustomPolish && HasRequirements(reqs) then
      if directive.None? then Err(KeyError(language))
      else Ok(CustomPrompt(reqs.value, directive.value))
    else if directive.None? then Err(KeyError(language))
    else match PresetTemplate(polishType, directive.value)
      case None => Err(KeyError(polishType))
      case Some(template) => Ok(template)
  }

  /** The sentence limiting the answer to `maxLength` characters. */
  function LengthDirective(maxLength: int): string
  {
    LengthPrefix + IntToDecimal(maxLength) + LengthSuffix
  }

  /** The exact string `polish_paper` sends to the model, or the KeyError it raises first. */
  function BuildPolishPrompt(text: string, polishType: string, language: string, maxLength: int,
                             reqs: Option<seq<string>>): Result<string, Error>
  {
    match SelectPrompt(polishType, language, reqs)
      case Err(e) => Err(e)
      case Ok(prompt) => Ok(prompt + text + LengthDirective(maxLength))
  }
}
