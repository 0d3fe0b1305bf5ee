/** The older FAQ handlers of backend/dist/services/faqService.js: no field
    check of their own, English as the default language, no skipped
    language, ISO codes handed to the translator unmapped, any failed
    translation write fails the request, and no 404. */
module FaqService {
  import opened Wrappers
  import opened ChatModels
  import opened FaqModels
  import DetectService
  import TS = TranslationService
  import RH = ResponseHandler
  import FaqController

  const MissingIdMessage := "FAQ id required"

  /** The FAQ's language: the one given, or "en". */
  function DefaultLanguage(body: UploadBody): (r: string)
    ensures Present(body.language) ==> r == body.language.value
    ensures !Present(body.language) ==> r == DefaultFaqLanguage
  {
    OrElse(body.language, DefaultFaqLanguage)
  }

  /** The fan-out: every enabled language, the FAQ's own included, with the
      ISO codes as they are. */
  function Fan(s: FaqStore, cache: TS.Cache, faq: Faq, env: FaqEnv): (r: Fanout)
    requires Valid(s) && faq.content != ""
  {
    EnabledCodesPresent(s);
    TranslateInto(faq, EnabledLanguages(s), None, (c: string) => c, cache, env.engine, env.translationInsertFault)
  }

  /** `uploadFAQ`: the FAQ model's own validation refuses a body without
      title or content, and that and every other failure answers 500 with
      the error's message. The FAQ is stored before the translations, so a
      failed translation write answers 500 although the FAQ, and every
      translation whose write succeeded, remain stored. */
  function UploadFaq(s: FaqStore, cache: TS.Cache, body: UploadBody, env: FaqEnv): (r: UploadOutcome)
    requires Valid(s)
    ensures Valid(r.store)
    ensures RH.WellFormed(r.reply)
    ensures r.reply.status == 200 || r.reply.status == 500
    ensures !Present(body.title) || !Present(body.content) ==>
      && r.store == s && r.calls == []
      && r.reply == RH.SendResponse(500, UploadFailedMessage,
           Some(MessageData(ErrorMessage(ValidationError("FAQ", FaqInvalidPaths(FaqDraft(body.title, body.content,
                body.category, Some(DefaultLanguage(body)))))))))
    ensures Present(body.title) && Present(body.content) && env.faqInsertFault.Some? ==>
      r == UploadOutcome(RH.SendResponse(500, UploadFailedMessage, Some(MessageData(env.faqInsertFault.value))),
                         s, cache, [])
    ensures Present(body.title) && Present(body.content) && env.faqInsertFault.None? ==>
      && s.nextId !in s.faqs
      && s.nextId in r.store.faqs
      && r.store.faqs == s.faqs[s.nextId := r.store.faqs[s.nextId]]
      && r.store.faqs[s.nextId]
         == Faq(s.nextId, body.title.value, body.content.value, body.category, DefaultLanguage(body))
    ensures r.reply.status == 200 ==>
      && Present(body.title) && Present(body.content) && env.faqInsertFault.None? && env.langFindFault.None?
      && r.reply.body.data == Some(FaqData(r.store.faqs[s.nextId]))
    ensures Present(body.title) && Present(body.content) && env.faqInsertFault.None? && env.langFindFault.None? ==>
      var faq := r.store.faqs[s.nextId];
      var fan := Fan(InsertFaq(s, faq), cache, faq, env);
      && r.store.translations == s.translations + fan.created
      && r.cache == fan.cache && r.calls == fan.calls
      && (r.reply.status == 200 <==> fan.failed == [])
      && (fan.failed != [] ==> r.reply.body.data == Some(MessageData(fan.failed[0].1)))
  {
    var draft := FaqDraft(body.title, body.content, body.category, Some(DefaultLanguage(body)));
    match CreateFaq(draft, s.nextId)
    case Failure(e) => UploadOutcome(RH.SendResponse(500, UploadFailedMessage, Some(MessageData(ErrorMessage(e)))), s, cache, [])
    case Success(faq) =>
      if env.faqInsertFault.Some? then
        UploadOutcome(RH.SendResponse(500, UploadFailedMessage, Some(MessageData(env.faqInsertFault.value))), s, cache, [])
      else
        var s1 := InsertFaq(s, faq);
        if env.langFindFault.Some? then
          UploadOutcome(RH.SendResponse(500, UploadFailedMessage, Some(MessageData(env.langFindFault.value))), s1, cache, [])
        else
          var fan := Fan(s1, cache, faq, env);
          var s2 := AddTranslations(s1, fan.created);
          if fan.failed == [] then UploadOutcome(RH.SendResponse(200, UploadedMessage, Some(FaqData(faq))), s2, fan.cache, fan.calls)
          else UploadOutcome(RH.SendResponse(500, UploadFailedMessage, Some(MessageData(fan.failed[0].1))), s2, fan.cache, fan.calls)
  }

  /** Unlike the controller, this variant also translates into the FAQ's
      own language: every enabled language whose write succeeds gets a
      translation. */
  lemma UploadCoversEveryEnabledLanguage(s: FaqStore, cache: TS.Cache, body: UploadBody, env: FaqEnv)
    requires Valid(s)
    requires Present(body.title) && Present(body.content) && env.faqInsertFault.None? && env.langFindFault.None?
    ensures var r := UploadFaq(s, cache, body, env);
      forall l :: l in s.languages && l.enabled && env.translationInsertFault(l.code).None? ==>
        exists t :: t in r.store.translations[|s.translations|..] && t.faqId == s.nextId && t.language == l.code
  {
    var r := UploadFaq(s, cache, body, env);
    var faq := r.store.faqs[s.nextId];
    var s1 := InsertFaq(s, faq);
    EnabledCodesPresent(s1);
    var langs := EnabledLanguages(s1);
    TranslateIntoCoversAccepted(faq, langs, None, (c: string) => c, cache, env.engine, env.translationInsertFault);
    var fan := Fan(s1, cache, faq, env);
    assert r.store.translations[|s.translations|..] == fan.created;
    forall l | l in s.languages && l.enabled && env.translationInsertFault(l.code).None?
      ensures exists t :: t in fan.created && t.faqId == s.nextId && t.language == l.code
    {
      assert l in langs;
      var t :| t in fan.created && t.language == l.code;
    }
  }

  /** The answer to an upload that got as far as the translations is 200
      exactly when no enabled language's write fails. */
  lemma UploadSucceedsIffAllWritesSucceed(s: FaqStore, cache: TS.Cache, body: UploadBody, env: FaqEnv)
    requires Valid(s)
    requires Present(body.title) && Present(body.content) && env.faqInsertFault.None? && env.langFindFault.None?
    ensures UploadFaq(s, cache, body, env).reply.status == 200 <==>
      forall l :: l in s.languages && l.enabled ==> env.translationInsertFault(l.code).None?
  {
    var r := UploadFaq(s, cache, body, env);
    var faq := r.store.faqs[s.nextId];
    var s1 := InsertFaq(s, faq);
    EnabledCodesPresent(s1);
    var langs := EnabledLanguages(s1);
    TranslateIntoReportsFailures(faq, langs, None, (c: string) => c, cache, env.engine, env.translationInsertFault);
    var fan := Fan(s1, cache, faq, env);
    assert r.reply.status == 200 <==> fan.failed == [];
    if fan.failed != [] {
      var f := fan.failed[0];
      assert f in fan.failed;
      var l :| l in langs && l.code == f.0 && env.translationInsertFault(f.0) == Some(f.1);
      assert l in s.languages && l.enabled;
    } else {
      forall l | l in s.languages && l.enabled ensures env.translationInsertFault(l.code).None? {
        assert l in langs;
      }
    }
  }

  /** A failed translation write does not undo the FAQ: it is stored and
      the answer is still 500. */
  lemma FailedTranslationKeepsFaq(s: FaqStore, cache: TS.Cache, body: UploadBody, env: FaqEnv, l: Language)
    requires Valid(s)
    requires Present(body.title) && Present(body.content) && env.faqInsertFault.None? && env.langFindFault.None?
    requires l in s.languages && l.enabled && env.translationInsertFault(l.code).Some?
    ensures var r := UploadFaq(s, cache, body, env);
      r.reply.status == 500 && s.nextId in r.store.faqs && s.nextId !in s.faqs
  {
    UploadSucceedsIffAllWritesSucceed(s, cache, body, env);
  }

  /** `getFAQ`: 400 without an id; with a language, a stored translation of
      the FAQ into it wins; otherwise 200 with the FAQ, or with `null` when
      there is none. */
  function GetFaq(s: FaqStore, q: FaqQuery): (r: RH.Reply<FaqData>)
    ensures RH.WellFormed(r)
    ensures q.id.None? <==> r.status == 400
    ensures q.id.None? ==> r == RH.SendResponse(400, MissingIdMessage, None)
    ensures q.id.Some? ==> r.status == 200 && r.body.data.Some?
    ensures q.id.Some? && Present(q.lang) && FindTranslation(s.translations, q.id.value, q.lang.value).Some? ==>
      r == RH.SendResponse(200, FetchedMessage,
                           Some(TranslationData(FindTranslation(s.translations, q.id.value, q.lang.value).value)))
    ensures q.id.Some? && q.id.value in s.faqs
            && !(Present(q.lang) && FindTranslation(s.translations, q.id.value, q.lang.value).Some?) ==>
      r == RH.SendResponse(200, FetchedMessage, Some(FaqData(s.faqs[q.id.value])))
    ensures q.id.Some? && r.body.data.value == NoFaq <==>
      && q.id.Some? && q.id.value !in s.faqs
      && !(Present(q.lang) && FindTranslation(s.translations, q.id.value, q.lang.value).Some?)
  {
    if q.id.None? then RH.SendResponse(400, MissingIdMessage, None)
    else
      var id := q.id.value;
      if Present(q.lang) && FindTranslation(s.translations, id, q.lang.value).Some? then
        RH.SendResponse(200, FetchedMessage, Some(TranslationData(FindTranslation(s.translations, id, q.lang.value).value)))
      else if id in s.faqs then RH.SendResponse(200, FetchedMessage, Some(FaqData(s.faqs[id])))
      else RH.SendResponse(200, FetchedMessage, Some(NoFaq))
  }

  /** The two lookups agree whenever there is something to return; where
      the controller answers 404 this variant answers 200 with `null`. */
  lemma GetFaqAgreesWithController(s: FaqStore, q: FaqQuery)
    requires q.id.Some?
    ensures FaqController.GetFaq(s, q).status != 404 ==> GetFaq(s, q) == FaqController.GetFaq(s, q)
    ensures FaqController.GetFaq(s, q).status == 404 ==>
      GetFaq(s, q) == RH.SendResponse(200, FetchedMessage, Some(NoFaq))
  {
  }
}
