/** `ai_engine/analyzer.py`: the guard against blank content and the
    truncation applied before the content goes to the language model.

    The OpenAI call and the `eval` of its answer are one parameter, `ai`,
    from the (possibly truncated) content to the analysis or to the text of
    the exception it raised. */
module Analyzer {
  import opened Base
  import opened Strings
  import opened Json

  const MaxTokens := 16000
  /** The rough characters-per-token ratio of the truncation test. */
  const CharsPerToken := 4
  const ContentLimit := MaxTokens * CharsPerToken
  const TruncationMarker := "\n\n[Content truncated due to length]\n\n"
  const EmptyContentText := "Empty content provided for analysis"
  const AnalysisErrorPrefix := "Error analyzing content with AI: "

  /** The content sent to the model: at most `ContentLimit` characters of
      it, followed by the marker when something was cut. */
  function Truncate(content: string): (r: string)
    ensures |content| <= ContentLimit ==> r == content
    ensures |content| > ContentLimit ==> r == content[..ContentLimit] + TruncationMarker
    ensures |r| <= |content| + |TruncationMarker|
  {
    if |content| > ContentLimit then content[..ContentLimit] + TruncationMarker else content
  }

  /** Truncating twice cuts nothing more: the marker falls exactly beyond
      the limit and is cut and re-appended. */
  lemma TruncateIdempotent(content: string)
    ensures Truncate(Truncate(content)) == Truncate(content)
  {
    if |content| > ContentLimit {
      var t := Truncate(content);
      assert t[..ContentLimit] == content[..ContentLimit];
    }
  }

  /** Text no longer than the limit reaches the model unchanged, and longer
      text is never sent whole. */
  lemma TruncateKeepsShortContent(content: string)
    ensures Truncate(content) == content <==>
      |content| <= ContentLimit || content[ContentLimit..] == TruncationMarker
  {
    if |content| > ContentLimit {
      var t := Truncate(content);
      if t == content {
        assert content[ContentLimit..] == t[ContentLimit..];
      } else {
        assert content != content[..ContentLimit] + content[ContentLimit..] || content[ContentLimit..] != TruncationMarker;
      }
    }
  }

  /** `not content or len(content.strip()) == 0`. */
  predicate IsBlank(content: string) {
    |Strip(content)| == 0
  }

  /** `analyze_content`: the blank guard raises before the `try`, so its
      message is not prefixed; every failure of the model call is. */
  function AnalyzeContent(content: string, ai: string -> Fallible<Json>): (r: Fallible<Json>)
    ensures AllSpace(content) ==> r == Err(EmptyContentText)
    ensures !AllSpace(content) ==> (r.Ok? <==> ai(Truncate(content)).Ok?)
    ensures !AllSpace(content) && r.Ok? ==> r == ai(Truncate(content))
    ensures !AllSpace(content) && r.Err? ==> r.error == AnalysisErrorPrefix + ai(Truncate(content)).error
  {
    StripEmptyIffAllSpace(content);
    if IsBlank(content) then Err(EmptyContentText)
    else
      match ai(Truncate(content))
      case Ok(analysis) => Ok(analysis)
      case Err(e) => Err(AnalysisErrorPrefix + e)
  }
}
