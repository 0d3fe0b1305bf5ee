/** The NLLB translation service used by chat, FAQ and the translation API
    (backend/dist/services/translationService.js): a translator cache keyed by
    model size and a `translateText` that never fails. The transformer
    pipeline is a parameter (`Engine`): loading a model and running a loaded
    model can each fail. */
module TranslationService {
  import opened Wrappers
  import DetectService

  /** A handle on a loaded translation pipeline. */
  type Instance = nat

  /** One element of the pipeline's output array. */
  datatype TranslationOutput = TranslationOutput(translationText: Option<string>)

  /** The pipeline: `load(modelName)` builds a translator, `run(t, text, src,
      tgt)` runs translator `t` with NLLB tags `src` and `tgt`. */
  datatype Engine = Engine(
    load: string -> Result<Instance, string>,
    run: (Instance, string, string, string) -> Result<seq<TranslationOutput>, string>)

  /** The module-level `translators` object: model key to loaded translator.
      Its initial `null` slots are absent keys. */
  type Cache = map<string, Instance>

  const DefaultModel := "600M"
  const LargeModel := "3.3B"
  const LargeModelName := "facebook/nllb-200-3.3B"
  const DistilledModelName := "facebook/nllb-200-distilled-600M"

  /** `{translated, sourceLang, targetLang}` */
  datatype Translation = Translation(translated: string, sourceLang: string, targetLang: string)

  /** The text and NLLB tags a translator was run with. */
  datatype ModelCall = ModelCall(text: string, srcLang: string, tgtLang: string)

  datatype InitOutcome = InitOutcome(cache: Cache, translator: Result<Instance, string>, loaded: Option<string>)

  datatype TranslateOutcome = TranslateOutcome(cache: Cache, result: Translation, call: Option<ModelCall>)

  /** The pipeline model a cache key selects: the 3.3B model for `"3.3B"`,
      the distilled 600M model for every other key. */
  function ModelName(key: string): (r: string)
    ensures r == LargeModelName <==> key == LargeModel
    ensures r == LargeModelName || r == DistilledModelName
  {
    if key == LargeModel then LargeModelName else DistilledModelName
  }

  /** `initTranslator(key)`: loads the key's model only when the slot is
      empty, then caches it; a filled slot is returned without loading. A
      failed load leaves the cache as it was and is reported as a failure. */
  function InitTranslator(cache: Cache, key: string, engine: Engine): (r: InitOutcome)
    ensures key in cache ==> r.loaded.None? && r.cache == cache && r.translator == Success(cache[key])
    ensures key !in cache ==> r.loaded == Some(ModelName(key)) && r.translator == engine.load(ModelName(key))
    ensures r.translator.Success? ==> r.cache == cache[key := r.translator.value]
    ensures r.translator.Failure? ==> r.cache == cache
  {
    if key in cache then InitOutcome(cache, Success(cache[key]), None)
    else
      var name := ModelName(key);
      match engine.load(name)
      case Success(t) => InitOutcome(cache[key := t], Success(t), Some(name))
      case Failure(e) => InitOutcome(cache, Failure(e), Some(name))
  }

  /** Once a key's translator is loaded, initializing it again loads nothing
      and returns the same translator. */
  lemma InitTranslatorLoadsOnce(cache: Cache, key: string, e1: Engine, e2: Engine)
    requires InitTranslator(cache, key, e1).translator.Success?
    ensures var first := InitTranslator(cache, key, e1);
            var second := InitTranslator(first.cache, key, e2);
            second.loaded.None? && second.translator == first.translator && second.cache == first.cache
  {
  }

  /** `output[0]?.translation_text`, when it is a non-empty string. */
  function FirstText(output: Result<seq<TranslationOutput>, string>): (r: Option<string>)
    ensures r.Some? ==> r.value != ""
    ensures r.Some? ==> output.Success? && |output.value| > 0 && output.value[0].translationText == r
  {
    if output.Success? && |output.value| > 0 && Present(output.value[0].translationText)
    then output.value[0].translationText
    else None
  }

  /** `translateText(text, srcIso, tgtIso, key)`: never fails. The translator
      is run with the NLLB tags of the two ISO codes, while the result echoes
      the ISO codes as given. The result is the model's first non-empty
      translation; on an empty answer or on any failure (loading included) it
      is the input text. */
  function TranslateText(cache: Cache, text: string, srcIso: string, tgtIso: string, key: string, engine: Engine)
    : (r: TranslateOutcome)
    ensures r.result.sourceLang == srcIso && r.result.targetLang == tgtIso
    ensures r.cache == InitTranslator(cache, key, engine).cache
    ensures r.call.None? <==> InitTranslator(cache, key, engine).translator.Failure?
    ensures r.call.Some? ==>
      && key in r.cache
      && r.call.value == ModelCall(text, DetectService.MapToNLLB(srcIso), DetectService.MapToNLLB(tgtIso))
      && r.result.translated
         == FirstText(engine.run(r.cache[key], text, r.call.value.srcLang, r.call.value.tgtLang)).GetOr(text)
    ensures r.call.None? ==> r.result.translated == text
    ensures text != "" ==> r.result.translated != ""
  {
    var init := InitTranslator(cache, key, engine);
    match init.translator
    case Failure(_) => TranslateOutcome(init.cache, Translation(text, srcIso, tgtIso), None)
    case Success(t) =>
      var call := ModelCall(text, DetectService.MapToNLLB(srcIso), DetectService.MapToNLLB(tgtIso));
      var translated := FirstText(engine.run(t, call.text, call.srcLang, call.tgtLang)).GetOr(text);
      TranslateOutcome(init.cache, Translation(translated, srcIso, tgtIso), Some(call))
  }

  /** A translation request whose model fails, at load or at run time,
      returns the input text unchanged. */
  lemma TranslateFailureEchoesText(cache: Cache, text: string, srcIso: string, tgtIso: string, key: string, engine: Engine)
    requires key !in cache ==> engine.load(ModelName(key)).Failure?
    requires key in cache ==>
      engine.run(cache[key], text, DetectService.MapToNLLB(srcIso), DetectService.MapToNLLB(tgtIso)).Failure?
    ensures TranslateText(cache, text, srcIso, tgtIso, key, engine).result == Translation(text, srcIso, tgtIso)
  {
  }
}
