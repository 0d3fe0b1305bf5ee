/** The older single-translator service
    (backend/dist/services/translateService.js): one module-level translator
    for the distilled model, tags passed through unmapped, and an
    initialization that runs outside the error handler. */
module TranslateService {
  import opened Wrappers
  import TS = TranslationService

  /** The module-level `translator` variable. */
  type Slot = Option<TS.Instance>

  datatype Outcome = Outcome(slot: Slot, result: TS.Translation, call: TS.ModelCall)

  /** `initTranslator()`: loads the distilled model when the slot is empty;
      a failed load throws and leaves the slot empty. */
  function InitTranslator(slot: Slot, engine: TS.Engine): (r: Result<TS.Instance, string>)
    ensures slot.Some? ==> r == Success(slot.value)
    ensures slot.None? ==> r == engine.load(TS.DistilledModelName)
  {
    if slot.Some? then Success(slot.value) else engine.load(TS.DistilledModelName)
  }

  /** `translateText(text, srcNLLB, tgtNLLB)`: a failure to initialize
      escapes to the caller; a failure of the translation itself returns the
      text. The tags go to the model and back into the result unchanged. */
  function TranslateText(slot: Slot, text: string, srcTag: string, tgtTag: string, engine: TS.Engine)
    : (r: Result<Outcome, string>)
    ensures r.Failure? <==> slot.None? && engine.load(TS.DistilledModelName).Failure?
    ensures r.Success? ==>
      && r.value.slot.Some?
      && (slot.Some? ==> r.value.slot == slot)
      && r.value.call == TS.ModelCall(text, srcTag, tgtTag)
      && r.value.result.sourceLang == srcTag && r.value.result.targetLang == tgtTag
      && r.value.result.translated
         == TS.FirstText(engine.run(r.value.slot.value, text, srcTag, tgtTag)).GetOr(text)
    ensures r.Success? && slot.None? ==> r.value.slot == Some(engine.load(TS.DistilledModelName).value)
    ensures r.Success? && text != "" ==> r.value.result.translated != ""
  {
    match InitTranslator(slot, engine)
    case Failure(e) => Failure(e)
    case Success(t) =>
      var translated := TS.FirstText(engine.run(t, text, srcTag, tgtTag)).GetOr(text);
      Success(Outcome(Some(t), TS.Translation(translated, srcTag, tgtTag), TS.ModelCall(text, srcTag, tgtTag)))
  }

  /** Across any two sequential calls the model is loaded at most once: the
      second call reuses the translator the first one stored. */
  lemma {:induction false} LoadedAtMostOnce(slot: Slot, t1: string, t2: string, s1: string, s2: string,
                                           g1: string, g2: string, e1: TS.Engine, e2: TS.Engine)
    requires TranslateText(slot, t1, s1, g1, e1).Success?
    ensures var first := TranslateText(slot, t1, s1, g1, e1).value;
            var second := TranslateText(first.slot, t2, s2, g2, e2);
            second.Success? && second.value.slot == first.slot
  {
  }
}
