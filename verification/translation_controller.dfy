/** The `/translate` and `/detect` handlers of
    backend/dist/controllers/translationController.js. */
module TranslationController {
  import opened Wrappers
  import DetectService
  import TS = TranslationService
  import RH = ResponseHandler

  /** The request body; a missing field is `None`. */
  datatype TranslateBody = TranslateBody(text: Option<string>, targetLang: Option<string>, sourceLang: Option<string>)

  datatype DetectedLanguage = DetectedLanguage(lang: string)

  /** The reply together with the translator cache and the model call, if
      any, the request caused. */
  datatype TranslateReply = TranslateReply(reply: RH.Reply<TS.Translation>, cache: TS.Cache, call: Option<TS.ModelCall>)

  const MissingTranslateFields := "text and targetLang required"
  const MissingDetectText := "text required"
  const OkMessage := "OK"

  /** The source language used: the one given, or the detected one. */
  function SourceLanguage(body: TranslateBody, detector: DetectService.Detector): (r: string)
    requires Present(body.text)
    ensures Present(body.sourceLang) ==> r == body.sourceLang.value
    ensures !Present(body.sourceLang) ==> r == DetectService.DetectLanguage(detector, body.text.value)
    ensures r != ""
  {
    OrElse(body.sourceLang, DetectService.DetectLanguage(detector, body.text.value))
  }

  /** `translate`: without text or target language the answer is 400 and no
      service runs; otherwise the answer is 200 with the translation of the
      text from the given or detected source language into the target, which
      echoes both languages and is never empty. */
  function Translate(cache: TS.Cache, body: TranslateBody, detector: DetectService.Detector, engine: TS.Engine)
    : (r: TranslateReply)
    ensures !Present(body.text) || !Present(body.targetLang) ==>
      r == TranslateReply(RH.SendResponse(400, MissingTranslateFields, None), cache, None)
    ensures Present(body.text) && Present(body.targetLang) ==>
      && r.reply.status == 200 && r.reply.body.success && r.reply.body.message == OkMessage
      && r.reply.body.data.Some?
      && r.reply.body.data.value.sourceLang == SourceLanguage(body, detector)
      && r.reply.body.data.value.targetLang == body.targetLang.value
      && r.reply.body.data.value.translated != ""
      && r.reply.body.data.value
         == TS.TranslateText(cache, body.text.value, SourceLanguage(body, detector), body.targetLang.value,
                             TS.DefaultModel, engine).result
      && (r.call.Some? ==>
            r.call.value == TS.ModelCall(body.text.value,
                                         DetectService.MapToNLLB(SourceLanguage(body, detector)),
                                         DetectService.MapToNLLB(body.targetLang.value)))
  {
    if !Present(body.text) || !Present(body.targetLang) then
      TranslateReply(RH.SendResponse(400, MissingTranslateFields, None), cache, None)
    else
      var src := SourceLanguage(body, detector);
      var out := TS.TranslateText(cache, body.text.value, src, body.targetLang.value, TS.DefaultModel, engine);
      TranslateReply(RH.SendResponse(200, OkMessage, Some(out.result)), out.cache, out.call)
  }

  /** `detect`: 400 without text, otherwise 200 with `{lang}` for the
      detected language. */
  function Detect(text: Option<string>, detector: DetectService.Detector): (r: RH.Reply<DetectedLanguage>)
    ensures !Present(text) <==> r.status == 400
    ensures !Present(text) ==> r == RH.SendResponse(400, MissingDetectText, None)
    ensures Present(text) ==>
      r == RH.SendResponse(200, OkMessage, Some(DetectedLanguage(DetectService.DetectLanguage(detector, text.value))))
    ensures RH.WellFormed(r)
  {
    if !Present(text) then RH.SendResponse(400, MissingDetectText, None)
    else RH.SendResponse(200, OkMessage, Some(DetectedLanguage(DetectService.DetectLanguage(detector, text.value))))
  }

  /** When the caller names no source language, `translate` reports the same
      language `detect` answers for that text. */
  lemma TranslateAgreesWithDetect(cache: TS.Cache, text: string, target: string,
                                  detector: DetectService.Detector, engine: TS.Engine)
    requires text != "" && target != ""
    ensures var t := Translate(cache, TranslateBody(Some(text), Some(target), None), detector, engine);
            var d := Detect(Some(text), detector);
      t.reply.body.data.value.sourceLang == d.body.data.value.lang
  {
  }
}
