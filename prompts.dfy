/** The request bodies built without any state: the prompts sent to the language model
    by the explain, debug, heatmap and ask endpoints, and the reply of the compile stub. */
module Prompts {
  import opened Request
  import Decimal

  // Long literals are written as concatenations so that the verifier can see their first characters.
  const ExplainPrefix: string := "Explain " + "this code line-by-line in beginner-friendly way:\n\n"
  const DebugPrefix: string :=
    "Find bugs, " + "infinite loops, or TLE risks in this code. " +
    "Return the issues in **red** color using markdown `**` and rest in *blue* using `*`. " +
    "Suggest fixes too:\n\n"
  const HeatmapPrefix: string :=
    "Give a " + "performance heatmap for this code. " +
    "Highlight bottlenecks as `**RED**` and optimized parts as `*BLUE*`:\n\n"
  const AskHead: string := "Given this code:\n"
  const AskMiddle: string := "\n\nAnswer this question: "

  const CompileHead: string := "\U{2705} Code received. Simulated execution. Length: "
  const CompileTail: string := " characters."
  /** The text of the `TypeError` that `len(None)` raises when the request carries no code. */
  const NoLenMessage: string := "object of type 'NoneType' has no len()"

  /** A prompt made of a fixed instruction followed by the submitted code, as the
      explain, debug and heatmap endpoints build it. */
  function Prefixed(prefix: string, code: Field): (p: string)
    ensures |p| == |prefix| + |Render(code)|
    ensures p[..|prefix|] == prefix && p[|prefix|..] == Render(code)
  {
    prefix + Render(code)
  }

  function ExplainPrompt(code: Field): string { Prefixed(ExplainPrefix, code) }
  function DebugPrompt(code: Field): string { Prefixed(DebugPrefix, code) }
  function HeatmapPrompt(code: Field): string { Prefixed(HeatmapPrefix, code) }

  /** The ask prompt: the code comes first, then the question, each between fixed texts. */
  function AskPrompt(code: Field, question: Field): (p: string)
    ensures |p| == |AskHead| + |Render(code)| + |AskMiddle| + |Render(question)|
    ensures p[..|AskHead|] == AskHead
    ensures p[|AskHead|..|AskHead| + |Render(code)|] == Render(code)
    ensures p[|AskHead| + |Render(code)|..|p| - |Render(question)|] == AskMiddle
    ensures p[|p| - |Render(question)|..] == Render(question)
  {
    AskHead + Render(code) + AskMiddle + Render(question)
  }

  /** The submitted code can be read back from a prefixed prompt, so distinct code gives
      distinct prompts. */
  lemma PrefixedInjective(prefix: string, a: Field, b: Field)
    requires Prefixed(prefix, a) == Prefixed(prefix, b)
    ensures Render(a) == Render(b)
  {
    assert Render(a) == Prefixed(prefix, a)[|prefix|..];
  }

  /** The characters that tell the four prompts apart. */
  lemma PromptMarks(c: Field, q: Field)
    ensures ExplainPrompt(c)[0] == 'E'
    ensures DebugPrompt(c)[0] == 'F'
    ensures HeatmapPrompt(c)[0] == 'G' && HeatmapPrompt(c)[4] == ' '
    ensures AskPrompt(c, q)[0] == 'G' && AskPrompt(c, q)[4] == 'n'
  {
    assert ExplainPrefix[0] == 'E';
    assert DebugPrefix[0] == 'F';
    assert HeatmapPrefix[0] == 'G' && HeatmapPrefix[4] == ' ';
  }

  /** No two of the four endpoints ever send the same prompt, whatever the code and question. */
  lemma PromptsDistinct(c1: Field, c2: Field, q: Field)
    ensures ExplainPrompt(c1) != DebugPrompt(c2)
    ensures ExplainPrompt(c1) != HeatmapPrompt(c2)
    ensures ExplainPrompt(c1) != AskPrompt(c2, q)
    ensures DebugPrompt(c1) != HeatmapPrompt(c2)
    ensures DebugPrompt(c1) != AskPrompt(c2, q)
    ensures HeatmapPrompt(c1) != AskPrompt(c2, q)
  {
    PromptMarks(c1, q);
    PromptMarks(c2, q);
  }

  /** `Error` carries the text of the exception the view raises. The view does not catch
      it, so the client receives Flask's generic 500 page and never sees this text. */
  datatype CompileReply = Output(text: string) | Error(message: string)

  /** The compile stub: it runs nothing and reports the number of characters of the code,
      written as `str()` writes it (no leading zero); a request without code fails inside
      `len`. */
  function Compile(code: Field): (r: CompileReply)
    ensures r.Output? <==> code.Str?
    ensures code.Missing? ==> r.message == NoLenMessage
    ensures r.Output? ==>
      |CompileHead| + |CompileTail| < |r.text| &&
      r.text[..|CompileHead|] == CompileHead &&
      r.text[|r.text| - |CompileTail|..] == CompileTail &&
      Decimal.AllDigits(r.text[|CompileHead|..|r.text| - |CompileTail|]) &&
      Decimal.Value(r.text[|CompileHead|..|r.text| - |CompileTail|]) == |code.value| &&
      (|r.text| - |CompileTail| - |CompileHead| > 1 ==> r.text[|CompileHead|] != '0')
  {
    match code
    case Missing => Error(NoLenMessage)
    case Str(s) =>
      var digits := Decimal.Digits(|s|);
      var text := CompileHead + digits + CompileTail;
      assert text[|CompileHead|..|text| - |CompileTail|] == digits;
      Decimal.ValueOfDigits(|s|);
      Output(text)
  }
}
