/** Language selection from the browser: the first item of the
    Accept-Language header (section 5.3.5 of RFC 7231), taken literally as
    everything before the first comma, is activated around the next handler;
    without the header the language is `en`. Quality weights are not looked
    at and nothing is trimmed. */
module BrowserLanguageDetection {
  import opened Http

  const HeaderKey: string := "HTTP_ACCEPT_LANGUAGE"
  const DefaultLanguage: string := "en"

  /** `header.split(',')[0]` */
  function FirstItem(header: string): (lang: string)
    ensures ',' !in lang
    ensures lang <= header
    ensures ',' !in header ==> lang == header
    ensures |lang| < |header| ==> header[|lang|] == ','
    decreases |header|
  {
    if header == [] || header[0] == ',' then []
    else [header[0]] + FirstItem(header[1..])
  }

  /** The language to activate for a request's META dictionary. */
  function Detect(meta: map<string, string>): (lang: string)
    ensures HeaderKey !in meta ==> lang == DefaultLanguage
    ensures HeaderKey in meta ==> lang <= meta[HeaderKey] && ',' !in lang
  {
    FirstItem(if HeaderKey in meta then meta[HeaderKey] else DefaultLanguage)
  }

  /** What happens around the request, in order: the framework's `activate`
      and `deactivate` calls and the run of the next handler. */
  datatype Event = Activate(lang: string) | Handled | Deactivate

  /** The language active after a sequence of events (`None`: the default
      translation, as after `deactivate`). */
  function ActiveAfter(active: Option<string>, events: seq<Event>): Option<string>
    decreases |events|
  {
    if events == [] then active
    else
      var next := match events[0]
        case Activate(l) => Some(l)
        case Deactivate => None
        case Handled => active;
      ActiveAfter(next, events[1..])
  }

  /** The next handler runs while the detected language is active; it is
      given that language as the active translation, and its response is
      returned as it is. */
  function Call(request: Request, next: (Request, string) -> Response): (r: (Response, seq<Event>))
    ensures r.0 == next(request, Detect(request.meta))
    ensures r.1 == [Activate(Detect(request.meta)), Handled, Deactivate]
  {
    var lang := Detect(request.meta);
    (next(request, lang), [Activate(lang), Handled, Deactivate])
  }

  /** The handler runs exactly once, under the detected language, and
      afterwards no language is left active whatever was active before. */
  lemma HandlerRunsUnderDetectedLanguage(request: Request, next: (Request, string) -> Response, before: Option<string>)
    ensures var events := Call(request, next).1;
      && (forall i :: 0 <= i < |events| && events[i] == Handled ==> i == 1)
      && events[1] == Handled
      && ActiveAfter(before, events[..1]) == Some(Detect(request.meta))
      && ActiveAfter(before, events) == None
  {
    var events := Call(request, next).1;
    var lang := Detect(request.meta);
    assert events[..1] == [Activate(lang)];
    assert events[1..] == [Handled, Deactivate];
    assert events[1..][1..] == [Deactivate];
    assert ActiveAfter(Some(lang), [Deactivate]) == None by {
      assert [Deactivate][1..] == [];
    }
  }

  /** A weighted list yields its first item with its weight attached, and an
      empty header yields the empty language. */
  lemma NoWeightHandling()
    ensures FirstItem("fr-CH;q=0.9, en") == "fr-CH;q=0.9"
    ensures Detect(map[HeaderKey := ""]) == ""
  {
    var h := "fr-CH;q=0.9, en";
    assert h[11] == ',';
    assert h[..11] == "fr-CH;q=0.9";
    assert ',' !in h[..11];
    FirstItemUpToComma(h, 11);
  }

  /** The first item is exactly the text before the first comma. */
  lemma {:induction false} FirstItemUpToComma(header: string, i: nat)
    requires i < |header| && header[i] == ',' && ',' !in header[..i]
    ensures FirstItem(header) == header[..i]
    decreases i
  {
    if i > 0 {
      assert header[1..][..i - 1] == header[1..i];
      assert ',' !in header[1..][..i - 1] by {
        assert header[1..i] == header[..i][1..];
      }
      FirstItemUpToComma(header[1..], i - 1);
      assert header[..i] == [header[0]] + header[1..i];
    }
  }
}
