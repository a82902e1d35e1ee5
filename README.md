# Paper-polishing prompt assembly, in Dafny

The paper-rewriting tool has two modes. The question-answering mode and the
web page are thin calls into a UI framework, a PDF loader, a vector index and
a hosted language model. The one piece of logic the repository implements
itself is in `polish_paper` (`paper_rewrite/utils.py`). It assembles the
prompt sent to the model for a polishing request. This project models that
assembly for the arguments the page passes, and proves what the assembled
string looks like.

The request has four parts:

- a polishing type: one of three presets (学术润色, 语法修改, 简单润色) or custom (自定义润色);
- an output language: 中文, 英文 or 中英对照, which selects a one-sentence language directive;
- an optional list of custom requirements;
- the text and a maximum length.

For the custom type with a non-empty list, the prompt is a header line, then
the requirements numbered from 1, then the language directive as item n+1. For
a preset, the prompt is a fixed title and five fixed requirements, with the
language directive as item 6. Every prompt ends with the marker `文本内容：`. The
string sent is the prompt, then the text, then a sentence limiting the answer
to `max_length` characters.

Files:

- `wrappers.dfy`: `Option` and `Result`.
- `decimal.dfy`: module `Decimal`. It renders integers in decimal, as Python's `str(int)` does, so it gives the `{i}` and `{max_length}` placeholders. A canonical decimal parser is the inverse the rendering is proved against.
- `polish_prompt.dfy`: module `PolishPrompt`. It holds the language table, the preset templates, the numbered list and the custom prompt. `BuildCustomPrompt` is the imperative accumulator loop. `SelectPrompt` gives the prompt part and `BuildPolishPrompt` gives the full string or the `KeyError`.
- `prompt_facts.dfy`: module `PromptFacts`. It holds the properties of the assembled prompt.

Polishing type and language stay strings, as in the program. That way a failed
lookup reports the key it failed on. The Python `KeyError(key)` becomes
`Err(KeyError(key))`. `custom_requirements` is `Option<seq<string>>`, because
the program treats `None` and `[]` alike (both are false in the test at line 58).

The model follows the code. It raises `KeyError` in three cases:

- The language is unknown. Every branch looks the language up, and the preset dictionary builds all three templates before it is indexed. So this failure comes first, with the language as the key.
- The type is not a preset and the custom branch is not taken.
- The custom type has an empty or missing list. It then falls through to the preset dictionary, which has no custom key.

## Model

| member | source | states |
|---|---|---|
| `Decimal.NatToDecimal` | paper_rewrite/utils.py:61-63 | the rendering of a number placeholder is non-empty, all digits, has a leading zero only for 0, and has one digit exactly for numbers below 10 |
| `Decimal.IntToDecimal` | paper_rewrite/utils.py:98 | the rendering of `max_length` is non-empty, only digits and '-', and begins with '-' exactly for negative values |
| `Decimal.NatRoundTrip` | paper_rewrite/utils.py:61-63 | reading back the decimal form of a natural number gives that number |
| `Decimal.ParseNatCanonical` | paper_rewrite/utils.py:61-63 | every canonical decimal string is the rendering of the number it reads as (the other direction of the round trip) |
| `Decimal.IntRoundTrip` | paper_rewrite/utils.py:98 | reading back the rendering of an integer gives that integer |
| `Decimal.ParseIntCanonical` | paper_rewrite/utils.py:98 | every canonical integer string is the rendering of the integer it reads as |
| `Decimal.IntToDecimalInjective` | paper_rewrite/utils.py:98 | distinct maximum lengths give distinct length directives |
| `PolishPrompt.LanguageDirective` | paper_rewrite/utils.py:52-56 | no contract; the language table, whose lookups and failures are stated by FailureCases and PromptIsNumberedList |
| `PolishPrompt.PresetTitle` | paper_rewrite/utils.py:67-85 | no contract; the title line of each preset template, stated through PresetTemplateIsNumberedList |
| `PolishPrompt.PresetRequirements` | paper_rewrite/utils.py:68-90 | the five fixed requirements of each preset, in order; the list has exactly five entries, so the directive is item 6 (PresetTemplateIsNumberedList) |
| `PolishPrompt.PresetTemplate` | paper_rewrite/utils.py:66-95 | no contract; the three preset templates, stated by PresetTemplateIsNumberedList and SixItemPrompt |
| `PolishPrompt.Item` | paper_rewrite/utils.py:62 | no contract; one `{i}. {req}` line, stated by NumberedListItemAt and CustomRequirementAt |
| `PolishPrompt.NumberedList` | paper_rewrite/utils.py:61-62 | no contract; the numbered requirement lines, stated by NumberedListSnoc, NumberedListAppend and NumberedListItemAt |
| `PolishPrompt.CustomPrompt` | paper_rewrite/utils.py:58-63 | no contract; the custom prompt, which BuildCustomPrompt computes and CustomPromptIsNumberedList states |
| `PolishPrompt.SelectPrompt` | paper_rewrite/utils.py:52-95 | no contract; the prompt part or the KeyError, stated by PromptIsNumberedList, DirectiveIsLastItem, PromptEndsWithTextMarker and FailureCases |
| `PolishPrompt.LengthDirective` | paper_rewrite/utils.py:98 | no contract; the length sentence, stated by TextAndLengthReadBack and ExampleLength |
| `PolishPrompt.BuildPolishPrompt` | paper_rewrite/utils.py:51-100 | no contract; the string handed to `model.invoke` or the KeyError, stated by SentStringLayout, FailureCases, OutcomeIndependentOfTextAndLength, PresetIgnoresRequirements and CustomExample |
| `PolishPrompt.BuildCustomPrompt` | paper_rewrite/utils.py:58-64 | the accumulator loop (header, one `+=` per requirement, final line) produces exactly the custom prompt: header, requirements numbered 1..n in order, directive as item n+1, marker |
| `PolishPrompt.NumberedListSnoc` | paper_rewrite/utils.py:61-62 | one more requirement adds exactly one line, numbered one past the lines before it |
| `PromptFacts.NumberedListAppend` | paper_rewrite/utils.py:61-62 | the numbered lines of a concatenation are the lines of the first part followed by the second part's lines, numbered on from where the first stopped |
| `PromptFacts.NumberedListItemAt` | paper_rewrite/utils.py:61-62 | item j is the line "start+j. item" verbatim, placed right after the lines of the items before it |
| `PromptFacts.CustomPromptIsNumberedList` | paper_rewrite/utils.py:58-64 | the custom prompt is the titled numbered list of the requirements followed by the language directive, then the marker |
| `PromptFacts.SixItemPrompt` | paper_rewrite/utils.py:66-93 | a six-item titled list prompt is, line by line, the title, "1. " … "6. " lines, a blank line and the marker |
| `PromptFacts.PresetTemplateIsNumberedList` | paper_rewrite/utils.py:66-95 | each preset template is the titled numbered list of its five fixed requirements with the language directive as item 6 |
| `PromptFacts.PromptIsNumberedList` | paper_rewrite/utils.py:51-95 | every successful prompt, preset or custom, is a numbered list of its requirements followed by the language directive, and success implies the language is known |
| `PromptFacts.ListPromptLastItem` | paper_rewrite/utils.py:63 | the last item of a list prompt is followed only by a blank line and the marker |
| `PromptFacts.DirectiveIsLastItem` | paper_rewrite/utils.py:63-93 | the language directive is item number (requirements + 1), the last line before the marker: n+1 for custom prompts, 6 for presets |
| `PromptFacts.PromptEndsWithTextMarker` | paper_rewrite/utils.py:63-93 | every successful prompt ends with `文本内容：`, so the text follows it immediately |
| `PromptFacts.CustomPromptStartsWithHeader` | paper_rewrite/utils.py:58-60 | the custom type with a non-empty list and a known language succeeds, and its prompt starts with the header line |
| `PromptFacts.CustomRequirementAt` | paper_rewrite/utils.py:58-62 | requirement j appears verbatim as the line "j+1. req", right after the header and the lines of the requirements before it |
| `PromptFacts.PresetIgnoresRequirements` | paper_rewrite/utils.py:65-95 | for a preset type the result, success or failure, does not depend on the requirement list |
| `PromptFacts.FailureCases` | paper_rewrite/utils.py:52-95 | assembly fails exactly when the language is unknown, or the type is neither a preset nor custom with a non-empty list; the key is the language in the first case, the type otherwise |
| `PromptFacts.CustomWithoutRequirementsFails` | paper_rewrite/utils.py:58-95 | the custom type with `None` or an empty list and a known language fails with `KeyError(自定义润色)` |
| `PromptFacts.SentStringLayout` | paper_rewrite/utils.py:98-100 | the string sent is the prompt part, then the text verbatim, then the length directive, and nothing else |
| `PromptFacts.OutcomeIndependentOfTextAndLength` | paper_rewrite/utils.py:51-100 | whether assembly fails, and with which key, depends neither on the text nor on the maximum length |
| `PromptFacts.TextAndLengthReadBack` | paper_rewrite/utils.py:98-100 | behind a fixed prompt, the text and the maximum length can both be recovered from the string sent |
| `PromptFacts.SentStringDeterminesTextAndLength` | paper_rewrite/utils.py:58-100 | for the same type, language and requirements, equal strings sent imply equal texts and equal maximum lengths |
| `PromptFacts.TwoRequirementPrompt` | paper_rewrite/utils.py:58-64 | a custom prompt with two requirements is, line by line, header, "1. a", "2. b", "3. directive", blank line, marker |
| `PromptFacts.ExampleLength` | paper_rewrite/utils.py:98 | a maximum length of 500 gives the directive `\n\n请确保润色后的文本不超过500字。` |
| `PromptFacts.CustomExample` | paper_rewrite/utils.py:58-100 | requirements 提高学术性 and 改善语法, Chinese output and 500 give exactly the expected string, with both requirements numbered and the 500-character limit |

## Left out

- `qa_agent` (`paper_rewrite/utils.py:9-39`): it writes a temporary file, loads a PDF, and calls the text splitter, the embedding model, the FAISS index and the retrieval chain. All of these live in external libraries whose code is not part of this model.
- The model call: building `ChatOpenAI` (model name, key, base URL, `temperature`, `max_tokens=max_length`), `model.invoke` and `response.content` are network calls. The model stops at the exact string handed to `model.invoke`. Errors raised by the client are not modelled.
- `paper_rewrite/main.py` is not part of this model: the Streamlit page, the session state, the copy and download buttons, and the chat-history rendering. Its requirement-collection loop yields at most five requirements, none of them empty or "无". The model does not assume either limit: `polish_paper` accepts any list.
- `max_length` is modelled as an integer, as the page supplies it. A float would render differently (`1000.0`) and is not modelled. Negative values render with a '-', as Python does.
- Requirements are modelled as strings. Python would render other objects with `str()`, which is not modelled.
- The model does not model Python's `KeyError` as an exception that unwinds the call. It models it as an error result that carries the missing key.
- `Decimal.IntToDecimal` renders an integer of any size, and so `PolishPrompt.LengthDirective` and `PolishPrompt.BuildPolishPrompt` succeed for any `max_length`. Python refuses to format an integer of more than 4300 digits and raises `ValueError` in the f-string. The page only supplies small integers, so this failure is not modelled.
- `PromptFacts.FailureCases` lists the `KeyError` cases only. The `ValueError` for an integer of more than 4300 digits is not modelled (see the line above).
- `BuildPolishPrompt` has no default arguments. The Python defaults `max_length=1000`, `language="中文"` and `custom_requirements=None` are not modelled, because the page passes every argument explicitly. A caller can supply the same values.
