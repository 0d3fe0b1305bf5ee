/** The FAQ handlers of backend/dist/controllers/faqController.js. */
module FaqController {
  import opened Wrappers
  import opened ChatModels
  import opened FaqModels
  import DetectService
  import TS = TranslationService
  import RH = ResponseHandler

  const MissingFieldsMessage := "Title and content are required"
  const MissingIdMessage := "FAQ id is required"
  const NotFoundMessage := "FAQ not found"

  /** The FAQ's language: the one given, or the one detected in the content. */
  function DefaultLanguage(body: UploadBody, detector: DetectService.Detector): (r: string)
    requires Present(body.content)
    ensures Present(body.language) ==> r == body.language.value
    ensures !Present(body.language) ==> r == DetectService.DetectLanguage(detector, body.content.value)
  {
    OrElse(body.language, DetectService.DetectLanguage(detector, body.content.value))
  }

  /** The FAQ an accepted upload creates. */
  function NewFaq(s: FaqStore, body: UploadBody, detector: DetectService.Detector): (r: Faq)
    requires Present(body.title) && Present(body.content)
    ensures r.id == s.nextId && r.title == body.title.value && r.content == body.content.value
    ensures r.category == body.category && r.defaultLanguage == DefaultLanguage(body, detector)
  {
    match CreateFaq(FaqDraft(body.title, body.content, body.category, Some(DefaultLanguage(body, detector))), s.nextId)
    case Success(faq) => faq
    case Failure(_) => assert false; Faq(s.nextId, "", "", None, "")
  }

  /** The fan-out of an accepted upload: every enabled language except the
      FAQ's own, with both tags passed through the NLLB mapping before the
      translator maps them again. */
  function Fan(s: FaqStore, cache: TS.Cache, faq: Faq, env: FaqEnv): (r: Fanout)
    requires Valid(s) && faq.content != ""
  {
    EnabledCodesPresent(s);
    TranslateInto(faq, EnabledLanguages(s), Some(faq.defaultLanguage), DetectService.MapToNLLB, cache, env.engine,
                  env.translationInsertFault)
  }

  /** `uploadFAQ`: a body without title or content is refused with 400 and
      nothing stored. Otherwise the FAQ is stored with the given or detected
      language, and translated into every other enabled language; a failed
      translation is skipped without affecting the answer. Only a failure to
      store the FAQ or to read the languages gives 500. */
  function UploadFaq(s: FaqStore, cache: TS.Cache, body: UploadBody, env: FaqEnv): (r: UploadOutcome)
    requires Valid(s)
    ensures Valid(r.store)
    ensures RH.WellFormed(r.reply)
    ensures !Present(body.title) || !Present(body.content) ==>
      r == UploadOutcome(RH.SendResponse(400, MissingFieldsMessage, None), s, cache, [])
    ensures r.reply.status == 200 <==>
      Present(body.title) && Present(body.content) && env.faqInsertFault.None? && env.langFindFault.None?
    ensures Present(body.title) && Present(body.content) && env.faqInsertFault.Some? ==>
      r == UploadOutcome(RH.SendResponse(500, UploadFailedMessage, Some(MessageData(env.faqInsertFault.value))),
                         s, cache, [])
    ensures Present(body.title) && Present(body.content) && env.faqInsertFault.None? ==>
      && r.store.faqs == s.faqs[s.nextId := NewFaq(s, body, env.detector)]
      && s.nextId !in s.faqs
      && r.store.languages == s.languages
    ensures Present(body.title) && Present(body.content) && env.faqInsertFault.None? && env.langFindFault.Some? ==>
      && r.reply == RH.SendResponse(500, UploadFailedMessage, Some(MessageData(env.langFindFault.value)))
      && r.store.translations == s.translations
    ensures r.reply.status == 200 ==>
      var faq := NewFaq(s, body, env.detector);
      var fan := Fan(InsertFaq(s, faq), cache, faq, env);
      && r.reply.body.data == Some(FaqData(faq))
      && r.store.translations == s.translations + fan.created
      && r.cache == fan.cache && r.calls == fan.calls
  {
    if !Present(body.title) || !Present(body.content) then
      UploadOutcome(RH.SendResponse(400, MissingFieldsMessage, None), s, cache, [])
    else
      var faq := NewFaq(s, body, env.detector);
      if env.faqInsertFault.Some? then
        UploadOutcome(RH.SendResponse(500, UploadFailedMessage, Some(MessageData(env.faqInsertFault.value))), s, cache, [])
      else
        var s1 := InsertFaq(s, faq);
        if env.langFindFault.Some? then
          UploadOutcome(RH.SendResponse(500, UploadFailedMessage, Some(MessageData(env.langFindFault.value))), s1, cache, [])
        else
          var fan := Fan(s1, cache, faq, env);
          UploadOutcome(RH.SendResponse(200, UploadedMessage, Some(FaqData(faq))),
                        AddTranslations(s1, fan.created), fan.cache, fan.calls)
  }

  /** An accepted upload stores no translation into the FAQ's own language,
      and stores one for every other enabled language whose write succeeds. */
  lemma UploadSkipsDefaultAndIsolatesFailures(s: FaqStore, cache: TS.Cache, body: UploadBody, env: FaqEnv)
    requires Valid(s)
    requires UploadFaq(s, cache, body, env).reply.status == 200
    ensures var r := UploadFaq(s, cache, body, env);
            var faq := NewFaq(s, body, env.detector);
      && (forall i :: |s.translations| <= i < |r.store.translations| ==>
            && r.store.translations[i].faqId == faq.id
            && r.store.translations[i].language != faq.defaultLanguage
            && r.store.translations[i].translatedText != "")
      && (forall l :: l in s.languages && l.enabled && l.code != faq.defaultLanguage
                      && env.translationInsertFault(l.code).None? ==>
            exists t :: t in r.store.translations[|s.translations|..] && t.faqId == faq.id && t.language == l.code)
  {
    var faq := NewFaq(s, body, env.detector);
    var s1 := InsertFaq(s, faq);
    EnabledCodesPresent(s1);
    var langs := EnabledLanguages(s1);
    var skip := Some(faq.defaultLanguage);
    TranslateIntoCreatesOnlyListed(faq, langs, skip, DetectService.MapToNLLB, cache, env.engine, env.translationInsertFault);
    TranslateIntoCoversAccepted(faq, langs, skip, DetectService.MapToNLLB, cache, env.engine, env.translationInsertFault);
    var r := UploadFaq(s, cache, body, env);
    var fan := Fan(s1, cache, faq, env);
    assert r.store.translations[|s.translations|..] == fan.created;
    forall i | |s.translations| <= i < |r.store.translations|
      ensures r.store.translations[i].language != faq.defaultLanguage
    {
      assert r.store.translations[i] in fan.created;
    }
  }

  /** Because the tags are mapped twice, every model call of an upload asks
      for `eng_Latn` to `eng_Latn`, whatever the languages involved. */
  lemma UploadAlwaysAsksEnglishToEnglish(s: FaqStore, cache: TS.Cache, body: UploadBody, env: FaqEnv)
    requires Valid(s)
    ensures forall c :: c in UploadFaq(s, cache, body, env).calls ==>
      c.text == body.content.value
      && c.srcLang == DetectService.NllbDefault && c.tgtLang == DetectService.NllbDefault
  {
    var r := UploadFaq(s, cache, body, env);
    if r.reply.status == 200 {
      var faq := NewFaq(s, body, env.detector);
      var s1 := InsertFaq(s, faq);
      EnabledCodesPresent(s1);
      var langs := EnabledLanguages(s1);
      TranslateIntoCalls(faq, langs, Some(faq.defaultLanguage), DetectService.MapToNLLB, cache, env.engine,
                         env.translationInsertFault);
      forall c | c in r.calls
        ensures c.srcLang == DetectService.NllbDefault && c.tgtLang == DetectService.NllbDefault
      {
        DetectService.MapToNLLBTwice(faq.defaultLanguage);
        var l :| l in langs && c.tgtLang == DetectService.MapToNLLB(DetectService.MapToNLLB(l.code));
        DetectService.MapToNLLBTwice(l.code);
      }
    }
  }

  /** `getFAQ`: 400 without an id; with a language, a stored translation of
      the FAQ into it wins; otherwise the FAQ itself, or 404 when there is
      none. */
  function GetFaq(s: FaqStore, q: FaqQuery): (r: RH.Reply<FaqData>)
    ensures RH.WellFormed(r)
    ensures q.id.None? ==> r == RH.SendResponse(400, MissingIdMessage, None)
    ensures q.id.Some? && Present(q.lang) && FindTranslation(s.translations, q.id.value, q.lang.value).Some? ==>
      r == RH.SendResponse(200, FetchedMessage,
                           Some(TranslationData(FindTranslation(s.translations, q.id.value, q.lang.value).value)))
    ensures q.id.Some? && q.id.value in s.faqs
            && !(Present(q.lang) && FindTranslation(s.translations, q.id.value, q.lang.value).Some?) ==>
      r == RH.SendResponse(200, FetchedMessage, Some(FaqData(s.faqs[q.id.value])))
    ensures r.status == 404 <==>
      && q.id.Some? && q.id.value !in s.faqs
      && !(Present(q.lang) && FindTranslation(s.translations, q.id.value, q.lang.value).Some?)
    ensures r.status == 200 ==>
      && r.body.data.Some? && (r.body.data.value.FaqData? || r.body.data.value.TranslationData?)
      && (r.body.data.value.FaqData? ==>
            q.id.Some? && q.id.value in s.faqs && r.body.data.value.faq == s.faqs[q.id.value])
  {
    if q.id.None? then RH.SendResponse(400, MissingIdMessage, None)
    else
      var id := q.id.value;
      if Present(q.lang) && FindTranslation(s.translations, id, q.lang.value).Some? then
        RH.SendResponse(200, FetchedMessage, Some(TranslationData(FindTranslation(s.translations, id, q.lang.value).value)))
      else if id in s.faqs then RH.SendResponse(200, FetchedMessage, Some(FaqData(s.faqs[id])))
      else RH.SendResponse(404, NotFoundMessage, None)
  }
}
