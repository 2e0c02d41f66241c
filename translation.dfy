/** The translation adapter `translateText({ text, from, to })`: a fixed
    chain of early returns in front of one call to the external translation
    service, with every failure falling back to the original text. The
    service is not modelled; the relay's view of it is a function from the
    request it sends to the response it gets back. */
module Translation {
  import opened JsValues

  /** The three environment settings the adapter reads at start-up; an unset
      variable is `None`. */
  datatype Config = Config(endpoint: Option<string>, key: Option<string>, region: Option<string>)

  /** A setting counts as present when it is set and not empty (`!endpoint`
      is true for `undefined` and for `""`). */
  predicate Present(setting: Option<string>) {
    setting.Some? && setting.value != ""
  }

  predicate Configured(cfg: Config) {
    Present(cfg.endpoint) && Present(cfg.key) && Present(cfg.region)
  }

  /** What the adapter asks the service for: one text, a source and a target language. */
  datatype Request = Request(text: string, from: Value, to: Value)

  /** How the request ends: it throws (network error, error status), or it
      answers with the `translations` array of the first result, each element
      reduced to its `text` field (`None` when the array is absent). */
  datatype Response = RequestFailed | Answered(translations: Option<seq<Value>>)

  /** The first translated text of a response, if it has one. */
  function FirstTranslation(response: Response): Option<Value> {
    match response
    case RequestFailed => None
    case Answered(ts) => if ts.Some? && |ts.value| > 0 then Some(ts.value[0]) else None
  }

  /** The adapter's result together with the request it sent, if any. */
  datatype Attempt = Attempt(text: Value, call: Option<Request>)

  /** `translateText({ text, from, to })`. It never fails: the result is the
      empty string for a falsy text, the service's first translation when the
      service was asked and gave one, and the original text otherwise. The
      service is asked exactly when every guard passes, and with exactly the
      adapter's arguments. */
  function TranslateText(cfg: Config, text: Value, from: Value, to: Value, gateway: Request -> Response): (a: Attempt)
    ensures a.call.Some? <==> Truthy(text) && Truthy(to) && from != to && Configured(cfg) && text.Str?
    ensures a.call.Some? ==> a.call.value == Request(text.s, from, to)
    ensures a.call.None? ==> a.text == (if Truthy(text) then text else Str(""))
    ensures a.call.Some? ==>
      a.text == match FirstTranslation(gateway(a.call.value)) case Some(t) => t case None => text
  {
    if !Truthy(text) then Attempt(Str(""), None)
    else if !Truthy(to) || from == to then Attempt(text, None)
    else if !Configured(cfg) then Attempt(text, None)
    // a text that is not a string makes the request's log line throw inside
    // the `try`, whose `catch` returns the text before any request is sent
    else if !text.Str? then Attempt(text, None)
    else
      var request := Request(text.s, from, to);
      match FirstTranslation(gateway(request))
      case Some(translated) => Attempt(translated, Some(request))
      case None => Attempt(text, Some(request))
  }

  /** The empty-text guard comes first: a falsy text gives `""` whatever the
      languages and the configuration, and nothing is sent. */
  lemma EmptyTextFirst(cfg: Config, text: Value, from: Value, to: Value, gateway: Request -> Response)
    requires !Truthy(text)
    ensures TranslateText(cfg, text, from, to, gateway) == Attempt(Str(""), None)
  {
  }

  /** For a truthy text, the language guard comes before the configuration
      guard: a missing target or equal languages return the text unchanged,
      configured or not. */
  lemma SameLanguageUnchanged(cfg: Config, text: Value, from: Value, to: Value, gateway: Request -> Response)
    requires Truthy(text) && (!Truthy(to) || from == to)
    ensures TranslateText(cfg, text, from, to, gateway) == Attempt(text, None)
  {
  }

  /** Without complete configuration the adapter is the identity on truthy
      text and never contacts the service, whatever the service would say. */
  lemma UnconfiguredIsIdentity(cfg: Config, text: Value, from: Value, to: Value, gateway: Request -> Response)
    requires !Configured(cfg) && Truthy(text)
    ensures TranslateText(cfg, text, from, to, gateway) == Attempt(text, None)
  {
  }

  /** A failed request, or an answer without translations, falls back to the
      original text. */
  lemma FailureFallsBack(cfg: Config, text: Value, from: Value, to: Value, gateway: Request -> Response)
    requires text.Str? && text.s != "" && Truthy(to) && from != to && Configured(cfg)
    requires gateway(Request(text.s, from, to)).RequestFailed?
          || gateway(Request(text.s, from, to)).translations.None?
          || gateway(Request(text.s, from, to)).translations.value == []
    ensures TranslateText(cfg, text, from, to, gateway) == Attempt(text, Some(Request(text.s, from, to)))
  {
  }

  /** Otherwise the result is the text of the first translation. */
  lemma FirstTranslationWins(cfg: Config, text: Value, from: Value, to: Value, gateway: Request -> Response, ts: seq<Value>)
    requires text.Str? && text.s != "" && Truthy(to) && from != to && Configured(cfg)
    requires gateway(Request(text.s, from, to)) == Answered(Some(ts)) && |ts| > 0
    ensures TranslateText(cfg, text, from, to, gateway).text == ts[0]
  {
  }
}
