/** The FAQ records (backend/dist/models/FAQ.js, FAQTranslation.js and
    Language.js), the in-memory FAQ store, and the per-language translation
    fan-out both FAQ upload handlers share. */
module FaqModels {
  import opened Wrappers
  import opened ChatModels
  import DetectService
  import Sequences
  import RH = ResponseHandler
  import TS = TranslationService

  datatype Faq = Faq(id: Id, title: string, content: string, category: Option<string>, defaultLanguage: string)

  /** The fields handed to `FAQ.create`; a missing field is `None`. */
  datatype FaqDraft = FaqDraft(title: Option<string>, content: Option<string>, category: Option<string>,
                               defaultLanguage: Option<string>)

  datatype FaqTranslation = FaqTranslation(faqId: Id, language: string, translatedText: string)

  datatype Language = Language(code: string, name: Option<string>, enabled: bool)

  const DefaultFaqLanguage := "en"

  /** The required paths a draft misses (the string validator also refuses
      the empty string). */
  function FaqInvalidPaths(d: FaqDraft): (r: seq<PathError>)
    ensures r == [] <==> Present(d.title) && Present(d.content)
  {
    (if Present(d.title) then [] else [Required("title")]) + (if Present(d.content) then [] else [Required("content")])
  }

  /** A FAQ with content but no title is refused with a message naming the
      model and the title path alone. */
  lemma MissingTitleMessage(content: string, category: Option<string>, language: Option<string>)
    requires content != ""
    ensures ErrorMessage(ValidationError("FAQ", FaqInvalidPaths(FaqDraft(None, Some(content), category, language))))
         == "FAQ" + ValidationFailed + PathErrorMessage(Required("title"))
  {
    assert FaqInvalidPaths(FaqDraft(None, Some(content), category, language)) == [Required("title")];
  }

  /** `FAQ.create`: title and content are required; the default language
      defaults to "en". */
  function CreateFaq(d: FaqDraft, id: Id): (r: Result<Faq, Error>)
    ensures r.Failure? <==> !Present(d.title) || !Present(d.content)
    ensures r.Failure? ==> r.error == ValidationError("FAQ", FaqInvalidPaths(d))
    ensures r.Success? ==>
      && r.value.id == id && r.value.title == d.title.value && r.value.content == d.content.value
      && r.value.category == d.category
      && r.value.defaultLanguage == (if d.defaultLanguage.Some? then d.defaultLanguage.value else DefaultFaqLanguage)
  {
    var bad := FaqInvalidPaths(d);
    if bad != [] then Failure(ValidationError("FAQ", bad))
    else Success(Faq(id, d.title.value, d.content.value, d.category,
                     if d.defaultLanguage.Some? then d.defaultLanguage.value else DefaultFaqLanguage))
  }

  /** `FAQTranslation.create`: language and translated text are required. */
  function CreateFaqTranslation(faqId: Id, language: string, translatedText: string): (r: Result<FaqTranslation, Error>)
    ensures r.Success? <==> language != "" && translatedText != ""
    ensures r.Success? ==> r.value == FaqTranslation(faqId, language, translatedText)
  {
    if language == "" || translatedText == "" then
      Failure(ValidationError("FAQTranslation",
                              (if language == "" then [Required("language")] else [])
                              + (if translatedText == "" then [Required("translatedText")] else [])))
    else Success(FaqTranslation(faqId, language, translatedText))
  }

  /** The FAQ collections: FAQs by id, translations in insertion order, and
      the language list. */
  datatype FaqStore = FaqStore(faqs: map<Id, Faq>, translations: seq<FaqTranslation>,
                               languages: seq<Language>, nextId: Id)

  /** Ids are fresh and self-describing, every translation belongs to a
      stored FAQ, and language codes are present (they are required). */
  predicate Valid(s: FaqStore) {
    && (forall id :: id in s.faqs ==> id < s.nextId && s.faqs[id].id == id)
    && (forall i :: 0 <= i < |s.translations| ==> s.translations[i].faqId in s.faqs)
    && (forall i :: 0 <= i < |s.languages| ==> s.languages[i].code != "")
  }

  /** `Language.find({enabled: true})`, in store order. */
  function EnabledLanguages(s: FaqStore): (r: seq<Language>)
    ensures forall l :: l in r <==> l in s.languages && l.enabled
  {
    Sequences.Filter(s.languages, (l: Language) => l.enabled)
  }

  /** `FAQTranslation.findOne({faqId, language})`: the first match. */
  function FindTranslation(ts: seq<FaqTranslation>, faqId: Id, language: string): (r: Option<FaqTranslation>)
    ensures r.Some? ==> r.value in ts && r.value.faqId == faqId && r.value.language == language
    ensures r.Some? ==> exists k :: (0 <= k < |ts| && ts[k] == r.value
      && forall j :: 0 <= j < k ==> !(ts[j].faqId == faqId && ts[j].language == language))
    ensures r.None? <==> forall i :: 0 <= i < |ts| ==> !(ts[i].faqId == faqId && ts[i].language == language)
  {
    if |ts| == 0 then None
    else if ts[0].faqId == faqId && ts[0].language == language then Some(ts[0])
    else FindTranslation(ts[1..], faqId, language)
  }

  /** What the fan-out over the languages leaves behind: the translations
      created, the translator cache, the model calls made and the codes whose
      translation could not be stored (with the store's error). */
  datatype Fanout = Fanout(created: seq<FaqTranslation>, cache: TS.Cache, calls: seq<TS.ModelCall>,
                           failed: seq<(string, string)>)

  /** For each language other than `skip`: translate the FAQ content from
      `tag(defaultLanguage)` to `tag(code)` and store the result. A store
      fault (`insertFault(code)`) is recorded and the remaining languages go
      ahead. The languages are handled one after another. */
  function TranslateInto(faq: Faq, langs: seq<Language>, skip: Option<string>, tag: string -> string,
                         cache: TS.Cache, engine: TS.Engine, insertFault: string -> Option<string>): (r: Fanout)
    requires faq.content != ""
    requires forall i :: 0 <= i < |langs| ==> langs[i].code != ""
    ensures forall t :: t in r.created ==> t.faqId == faq.id && t.translatedText != ""
    ensures |r.created| + |r.failed| <= |langs|
    decreases |langs|
  {
    if |langs| == 0 then Fanout([], cache, [], [])
    else
      var l := langs[0];
      if Some(l.code) == skip then TranslateInto(faq, langs[1..], skip, tag, cache, engine, insertFault)
      else
        var out := TS.TranslateText(cache, faq.content, tag(faq.defaultLanguage), tag(l.code), TS.DefaultModel, engine);
        var rest := TranslateInto(faq, langs[1..], skip, tag, out.cache, engine, insertFault);
        var calls := (if out.call.Some? then [out.call.value] else []) + rest.calls;
        match CreateFaqTranslation(faq.id, l.code, out.result.translated)
        case Failure(_) => assert false; rest
        case Success(t) =>
          if insertFault(l.code).Some? then Fanout(rest.created, rest.cache, calls, [(l.code, insertFault(l.code).value)] + rest.failed)
          else Fanout([t] + rest.created, rest.cache, calls, rest.failed)
  }

  /** The cache after the first language, the one the rest of the fan-out
      starts from. */
  function CacheAfterFirst(faq: Faq, langs: seq<Language>, skip: Option<string>, tag: string -> string,
                           cache: TS.Cache, engine: TS.Engine): TS.Cache
    requires |langs| > 0
  {
    if Some(langs[0].code) == skip then cache
    else TS.TranslateText(cache, faq.content, tag(faq.defaultLanguage), tag(langs[0].code), TS.DefaultModel, engine).cache
  }

  /** `t` holds what the translator returns for the FAQ content from the
      FAQ's language into `t`'s language, from some state of the translator
      cache. */
  ghost predicate TranslatedBy(t: FaqTranslation, faq: Faq, tag: string -> string, engine: TS.Engine) {
    exists c: TS.Cache :: t.translatedText
      == TS.TranslateText(c, faq.content, tag(faq.defaultLanguage), tag(t.language), TS.DefaultModel, engine)
           .result.translated
  }

  /** Every stored translation is for a listed language other than the
      skipped one, its store accepted it, and its text is the translator's
      output for the FAQ content. */
  lemma {:induction false} TranslateIntoCreatesOnlyListed(faq: Faq, langs: seq<Language>, skip: Option<string>,
                                                          tag: string -> string, cache: TS.Cache, engine: TS.Engine,
                                                          insertFault: string -> Option<string>)
    requires faq.content != ""
    requires forall i :: 0 <= i < |langs| ==> langs[i].code != ""
    ensures forall t :: t in TranslateInto(faq, langs, skip, tag, cache, engine, insertFault).created ==>
      && insertFault(t.language).None? && Some(t.language) != skip
      && (exists l :: l in langs && l.code == t.language)
      && TranslatedBy(t, faq, tag, engine)
    decreases |langs|
  {
    if |langs| > 0 {
      var next := CacheAfterFirst(faq, langs, skip, tag, cache, engine);
      TranslateIntoCreatesOnlyListed(faq, langs[1..], skip, tag, next, engine, insertFault);
      forall l | l in langs[1..] ensures l in langs { }
      var l := langs[0];
      if Some(l.code) != skip {
        var out := TS.TranslateText(cache, faq.content, tag(faq.defaultLanguage), tag(l.code), TS.DefaultModel, engine);
        assert TranslatedBy(FaqTranslation(faq.id, l.code, out.result.translated), faq, tag, engine);
      }
    }
  }

  /** Every listed language other than the skipped one whose store accepts
      the record gets a translation: one language's fault does not stop the
      others. */
  lemma {:induction false} TranslateIntoCoversAccepted(faq: Faq, langs: seq<Language>, skip: Option<string>,
                                                       tag: string -> string, cache: TS.Cache, engine: TS.Engine,
                                                       insertFault: string -> Option<string>)
    requires faq.content != ""
    requires forall i :: 0 <= i < |langs| ==> langs[i].code != ""
    ensures forall l :: l in langs && Some(l.code) != skip && insertFault(l.code).None? ==>
      exists t :: t in TranslateInto(faq, langs, skip, tag, cache, engine, insertFault).created && t.language == l.code
    decreases |langs|
  {
    if |langs| > 0 {
      var next := CacheAfterFirst(faq, langs, skip, tag, cache, engine);
      TranslateIntoCoversAccepted(faq, langs[1..], skip, tag, next, engine, insertFault);
      var r := TranslateInto(faq, langs, skip, tag, cache, engine, insertFault);
      var rest := TranslateInto(faq, langs[1..], skip, tag, next, engine, insertFault);
      forall l | l in langs && Some(l.code) != skip && insertFault(l.code).None?
        ensures exists t :: t in r.created && t.language == l.code
      {
        if l == langs[0] {
          var out := TS.TranslateText(cache, faq.content, tag(faq.defaultLanguage), tag(l.code), TS.DefaultModel, engine);
          assert r.created == [FaqTranslation(faq.id, l.code, out.result.translated)] + rest.created;
          assert r.created[0].language == l.code;
        } else {
          assert l in langs[1..];
          var t :| t in rest.created && t.language == l.code;
          assert t in r.created;
        }
      }
    }
  }

  /** The recorded failures are exactly the listed, non-skipped languages
      whose store refused the record, each with the store's error. */
  lemma {:induction false} TranslateIntoReportsFailures(faq: Faq, langs: seq<Language>, skip: Option<string>,
                                                        tag: string -> string, cache: TS.Cache, engine: TS.Engine,
                                                        insertFault: string -> Option<string>)
    requires faq.content != ""
    requires forall i :: 0 <= i < |langs| ==> langs[i].code != ""
    ensures forall f :: f in TranslateInto(faq, langs, skip, tag, cache, engine, insertFault).failed <==>
      exists l :: l in langs && l.code == f.0 && Some(f.0) != skip && insertFault(f.0) == Some(f.1)
    ensures forall l :: l in langs && Some(l.code) != skip && insertFault(l.code).Some? ==>
      (l.code, insertFault(l.code).value) in TranslateInto(faq, langs, skip, tag, cache, engine, insertFault).failed
    decreases |langs|
  {
    if |langs| > 0 {
      var next := CacheAfterFirst(faq, langs, skip, tag, cache, engine);
      TranslateIntoReportsFailures(faq, langs[1..], skip, tag, next, engine, insertFault);
      var r := TranslateInto(faq, langs, skip, tag, cache, engine, insertFault);
      var rest := TranslateInto(faq, langs[1..], skip, tag, next, engine, insertFault);
      forall f
        ensures f in r.failed <==> exists l :: l in langs && l.code == f.0 && Some(f.0) != skip && insertFault(f.0) == Some(f.1)
      {
        if exists l :: l in langs && l.code == f.0 && Some(f.0) != skip && insertFault(f.0) == Some(f.1) {
          var l :| l in langs && l.code == f.0 && Some(f.0) != skip && insertFault(f.0) == Some(f.1);
          if l != langs[0] {
            assert l in langs[1..];
          }
        }
        if f in rest.failed {
          var l :| l in langs[1..] && l.code == f.0 && Some(f.0) != skip && insertFault(f.0) == Some(f.1);
          assert l in langs;
        }
      }
    }
  }

  /** Every model call translates the FAQ content from the NLLB tag of
      `tag(defaultLanguage)` to that of `tag(code)` for a listed language. */
  lemma {:induction false} TranslateIntoCalls(faq: Faq, langs: seq<Language>, skip: Option<string>,
                                              tag: string -> string, cache: TS.Cache, engine: TS.Engine,
                                              insertFault: string -> Option<string>)
    requires faq.content != ""
    requires forall i :: 0 <= i < |langs| ==> langs[i].code != ""
    ensures forall c :: c in TranslateInto(faq, langs, skip, tag, cache, engine, insertFault).calls ==>
      && c.text == faq.content
      && c.srcLang == DetectService.MapToNLLB(tag(faq.defaultLanguage))
      && exists l :: l in langs && c.tgtLang == DetectService.MapToNLLB(tag(l.code))
    decreases |langs|
  {
    if |langs| > 0 {
      var next := CacheAfterFirst(faq, langs, skip, tag, cache, engine);
      TranslateIntoCalls(faq, langs[1..], skip, tag, next, engine, insertFault);
      forall l | l in langs[1..] ensures l in langs { }
    }
  }

  // ---------------------------------------------------------------------------
  // What both FAQ handlers share
  // ---------------------------------------------------------------------------

  /** The upload request body; a missing field is `None`. */
  datatype UploadBody = UploadBody(title: Option<string>, content: Option<string>, category: Option<string>,
                                   language: Option<string>)

  /** The lookup query `?id=&lang=`. */
  datatype FaqQuery = FaqQuery(id: Option<Id>, lang: Option<string>)

  /** The collaborators of an upload: language detection, the translator,
      and the store faults (the error a write or read would throw, if any). */
  datatype FaqEnv = FaqEnv(detector: DetectService.Detector, engine: TS.Engine,
                           faqInsertFault: Option<string>, langFindFault: Option<string>,
                           translationInsertFault: string -> Option<string>)

  /** The `data` of a FAQ reply: a FAQ, a translation, an error message, or
      `null`. */
  datatype FaqData = FaqData(faq: Faq) | TranslationData(translation: FaqTranslation) | MessageData(message: string) | NoFaq

  datatype UploadOutcome = UploadOutcome(reply: RH.Reply<FaqData>, store: FaqStore, cache: TS.Cache,
                                         calls: seq<TS.ModelCall>)

  const UploadedMessage := "FAQ uploaded and translated"
  const UploadFailedMessage := "FAQ upload failed"
  const FetchedMessage := "FAQ fetched"

  /** Stores a new FAQ under the next fresh id. */
  function InsertFaq(s: FaqStore, faq: Faq): (r: FaqStore)
    requires Valid(s) && faq.id == s.nextId
    ensures Valid(r)
    ensures r.faqs == s.faqs[faq.id := faq] && faq.id !in s.faqs && r.nextId == s.nextId + 1
    ensures r.translations == s.translations && r.languages == s.languages
  {
    s.(faqs := s.faqs[faq.id := faq], nextId := s.nextId + 1)
  }

  /** Appends translations of a stored FAQ. */
  function AddTranslations(s: FaqStore, ts: seq<FaqTranslation>): (r: FaqStore)
    requires Valid(s)
    requires forall t :: t in ts ==> t.faqId in s.faqs
    ensures Valid(r)
    ensures r.faqs == s.faqs && r.languages == s.languages && r.nextId == s.nextId
    ensures r.translations == s.translations + ts
  {
    var r := s.(translations := s.translations + ts);
    assert forall i :: |s.translations| <= i < |r.translations| ==> r.translations[i] in ts;
    r
  }

  /** Enabled languages of a valid store all have a code. */
  lemma EnabledCodesPresent(s: FaqStore)
    requires Valid(s)
    ensures forall i :: 0 <= i < |EnabledLanguages(s)| ==> EnabledLanguages(s)[i].code != ""
  {
    var langs := EnabledLanguages(s);
    forall i | 0 <= i < |langs| ensures langs[i].code != "" {
      assert langs[i] in s.languages;
    }
  }
}
