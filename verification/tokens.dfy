/**
 The token-counting abstraction of the fan-out script: `setup_token_counter`
 picks a backend once per run with a single fallback step, and
 `count_file_tokens` dispatches each count to the backend selected by the
 active tokenizer name. Whether a backend can be constructed, and what it
 answers for a text, are inputs: `anthropicOk`/`tiktokenOk` stand for the
 import, client construction and probe call succeeding, and `answer` for
 the backend's reply to one count request (`None` when the call raised).
 */
module Tokens {
  import opened Common

  /** The counter object a setup step hands back: the API client or the local encoder. */
  datatype Backend = AnthropicClient | TiktokenEncoder

  /** `(is_enabled, counter, tokenizer)` as returned by `setup_token_counter`. */
  datatype Setup = Setup(enabled: bool, counter: Option<Backend>, tokenizer: string)

  /** The advisory threshold above which the total triggers a warning. */
  const WarnThreshold: nat := 80000

  /** `setup_anthropic_counter`: `(True, client)` only when counting is on and construction succeeds. */
  function SetupAnthropic(countTokens: bool, anthropicOk: bool): (r: (bool, Option<Backend>))
    ensures r.0 <==> r.1.Some?
    ensures r.0 <==> countTokens && anthropicOk
    ensures r.1.Some? ==> r.1.value == AnthropicClient
  {
    if countTokens && anthropicOk then (true, Some(AnthropicClient)) else (false, None)
  }

  /** `setup_tiktoken_counter`: `(True, encoder)` only when counting is on and the encoder loads. */
  function SetupTiktoken(countTokens: bool, tiktokenOk: bool): (r: (bool, Option<Backend>))
    ensures r.0 <==> r.1.Some?
    ensures r.0 <==> countTokens && tiktokenOk
    ensures r.1.Some? ==> r.1.value == TiktokenEncoder
  {
    if countTokens && tiktokenOk then (true, Some(TiktokenEncoder)) else (false, None)
  }

  /**
   `setup_token_counter`. With counting off nothing is tried. The choice
   `"anthropic"` tries the API client and, if that fails, falls back once to
   tiktoken, renaming the active tokenizer only when the fallback succeeds;
   any other choice tries tiktoken alone.
   */
  function SetupTokenCounter(countTokens: bool, tokenizer: string, anthropicOk: bool, tiktokenOk: bool): (r: Setup)
    ensures !countTokens ==> r == Setup(false, None, tokenizer)
    ensures r.enabled <==> r.counter.Some?
    ensures r.enabled ==> (r.tokenizer == "anthropic" <==> r.counter == Some(AnthropicClient))
    ensures tokenizer == "anthropic" ==>
              (r.enabled <==> countTokens && (anthropicOk || tiktokenOk))
    ensures tokenizer == "anthropic" && countTokens && anthropicOk ==>
              r == Setup(true, Some(AnthropicClient), "anthropic")
    ensures tokenizer == "anthropic" && countTokens && !anthropicOk && tiktokenOk ==>
              r == Setup(true, Some(TiktokenEncoder), "tiktoken")
    ensures tokenizer == "anthropic" && !(anthropicOk || tiktokenOk) ==>
              r == Setup(false, None, "anthropic")
    ensures tokenizer != "anthropic" ==>
              r.tokenizer == tokenizer && (r.enabled <==> countTokens && tiktokenOk)
              && (r.enabled ==> r.counter == Some(TiktokenEncoder))
  {
    if !countTokens then Setup(false, None, tokenizer)
    else if tokenizer == "anthropic" then
      var (enabled, counter) := SetupAnthropic(countTokens, anthropicOk);
      if !enabled && countTokens then
        var (enabled', counter') := SetupTiktoken(countTokens, tiktokenOk);
        Setup(enabled', counter', if enabled' then "tiktoken" else tokenizer)
      else
        Setup(enabled, counter, tokenizer)
    else
      var (enabled, counter) := SetupTiktoken(countTokens, tiktokenOk);
      Setup(enabled, counter, tokenizer)
  }

  /**
   `count_anthropic_tokens`: no client gives `None`; a counter that is not
   the API client fails the attribute lookup, which is caught as `None`.
   */
  function CountAnthropic(counter: Option<Backend>, content: string, answer: (Backend, string) -> Option<nat>): (r: Option<nat>)
    ensures counter != Some(AnthropicClient) ==> r.None?
    ensures counter == Some(AnthropicClient) ==> r == answer(AnthropicClient, content)
  {
    match counter
    case None => None
    case Some(b) => if b == AnthropicClient then answer(b, content) else None
  }

  /** `count_tiktoken_tokens`, symmetric to `CountAnthropic` for the local encoder. */
  function CountTiktoken(counter: Option<Backend>, content: string, answer: (Backend, string) -> Option<nat>): (r: Option<nat>)
    ensures counter != Some(TiktokenEncoder) ==> r.None?
    ensures counter == Some(TiktokenEncoder) ==> r == answer(TiktokenEncoder, content)
  {
    match counter
    case None => None
    case Some(b) => if b == TiktokenEncoder then answer(b, content) else None
  }

  /** `count_file_tokens`: dispatch on the active tokenizer name. */
  function CountFileTokens(tokenizer: string, counter: Option<Backend>, content: string,
                           answer: (Backend, string) -> Option<nat>): (r: Option<nat>)
    ensures counter.None? ==> r.None?
    ensures r.Some? ==> r == answer(counter.value, content)
    ensures tokenizer == "anthropic" && counter == Some(AnthropicClient) ==> r == answer(AnthropicClient, content)
    ensures tokenizer != "anthropic" && counter == Some(TiktokenEncoder) ==> r == answer(TiktokenEncoder, content)
  {
    if tokenizer == "anthropic" then CountAnthropic(counter, content, answer)
    else CountTiktoken(counter, content, answer)
  }

  /**
   Whatever setup decided, the dispatch of every later count reaches the
   backend setup actually constructed: an enabled setup counts with its own
   counter, a disabled one counts nothing.
   */
  lemma DispatchMatchesSetup(countTokens: bool, tokenizer: string, anthropicOk: bool, tiktokenOk: bool,
                             content: string, answer: (Backend, string) -> Option<nat>)
    ensures var s := SetupTokenCounter(countTokens, tokenizer, anthropicOk, tiktokenOk);
            CountFileTokens(s.tokenizer, s.counter, content, answer)
            == if s.enabled then answer(s.counter.value, content) else None
  {
  }

  /**
   The end-of-run warning: printed only when counting was enabled and the
   total is positive and above the threshold.
   */
  function WarnsTooLarge(enabled: bool, total: nat): (w: bool)
    ensures w <==> enabled && total > WarnThreshold
  {
    enabled && total > 0 && total > WarnThreshold
  }
}
