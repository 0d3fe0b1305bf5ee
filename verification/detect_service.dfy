/** Language detection and the ISO 639-1 to NLLB-200 tag table
    (backend/dist/services/detectService.js). The statistical identifier
    (`franc`) and the ISO 639-3 code table (`iso-639-3`) are parameters. */
module DetectService {
  import opened Wrappers

  /** A row of the ISO 639-3 table: a three-letter code and, for some
      languages only, a two-letter ISO 639-1 code. */
  datatype IsoLanguage = IsoLanguage(iso6393: string, iso6391: Option<string>)

  /** The identifier, from text to an ISO 639-3 code or `"und"`, and the
      table its codes are looked up in. */
  datatype Detector = Detector(identify: string -> string, table: seq<IsoLanguage>)

  const Undetermined := "und"
  const DefaultIso := "en"

  /** Row `j` is the first row of `table` whose ISO 639-3 code is `code`
      (what `Array.prototype.find` returns). */
  predicate FirstMatch(table: seq<IsoLanguage>, code: string, j: int) {
    && 0 <= j < |table|
    && table[j].iso6393 == code
    && forall k :: 0 <= k < j ==> table[k].iso6393 != code
  }

  function FindFrom(table: seq<IsoLanguage>, code: string, from: nat): (r: Option<nat>)
    requires from <= |table|
    requires forall k :: 0 <= k < from ==> table[k].iso6393 != code
    ensures r.Some? ==> FirstMatch(table, code, r.value)
    ensures r.None? ==> forall k :: 0 <= k < |table| ==> table[k].iso6393 != code
    decreases |table| - from
  {
    if from == |table| then None
    else if table[from].iso6393 == code then Some(from)
    else FindFrom(table, code, from + 1)
  }

  /** `iso6393.find(l => l.iso6393 === code)`, as a row index. */
  function Find(table: seq<IsoLanguage>, code: string): (r: Option<nat>)
    ensures r.Some? ==> FirstMatch(table, code, r.value)
    ensures r.None? ==> forall k :: 0 <= k < |table| ==> table[k].iso6393 != code
  {
    FindFrom(table, code, 0)
  }

  /** `detectLanguage(text)`: the ISO 639-1 code of the identified language;
      `"en"` when the identifier gives up, when the code is not in the table,
      and when its row has no ISO 639-1 code. Never fails and never returns
      the empty string. */
  function DetectLanguage(d: Detector, text: string): (r: string)
    ensures r != ""
    ensures d.identify(text) == Undetermined ==> r == DefaultIso
    ensures (forall k :: 0 <= k < |d.table| ==> d.table[k].iso6393 != d.identify(text)) ==> r == DefaultIso
    ensures forall j ::
      FirstMatch(d.table, d.identify(text), j) && d.identify(text) != Undetermined ==>
      r == OrElse(d.table[j].iso6391, DefaultIso)
    ensures r != DefaultIso ==>
      exists j :: FirstMatch(d.table, d.identify(text), j) && d.table[j].iso6391 == Some(r)
  {
    var code := d.identify(text);
    if code == Undetermined then DefaultIso
    else
      match Find(d.table, code)
      case None => DefaultIso
      case Some(j) =>
        assert forall i :: FirstMatch(d.table, code, i) ==> i == j;
        OrElse(d.table[j].iso6391, DefaultIso)
  }

  // ---------------------------------------------------------------------------
  // NLLB-200 tags
  // ---------------------------------------------------------------------------

  const NllbDefault := "eng_Latn"

  /** The ten ISO 639-1 codes the translator knows, with their NLLB-200
      (FLORES-200 `lang_Script`) tags. */
  const NllbTags: map<string, string> := map[
    "en" := "eng_Latn",
    "fr" := "fra_Latn",
    "hi" := "hin_Deva",
    "es" := "spa_Latn",
    "de" := "deu_Latn",
    "zh" := "zho_Hans",
    "ja" := "jpn_Jpan",
    "ar" := "arb_Arab",
    "ru" := "rus_Cyrl",
    "pt" := "por_Latn"
  ]

  /** `mapToNLLB(iso)`: the table's tag, or `"eng_Latn"` for every other
      input. Every result is one of the table's tags and none is itself a
      key of the table. */
  function MapToNLLB(iso: string): (r: string)
    ensures iso in NllbTags ==> r == NllbTags[iso]
    ensures iso !in NllbTags ==> r == NllbDefault
    ensures r in NllbTags.Values
    ensures r !in NllbTags
  {
    if iso in NllbTags then NllbTags[iso]
    else
      assert NllbTags[DefaultIso] == NllbDefault;
      NllbDefault
  }

  /** Each of the ten listed codes maps to its own fixed tag. */
  lemma MapToNLLBListed()
    ensures MapToNLLB("en") == "eng_Latn" && MapToNLLB("fr") == "fra_Latn"
    ensures MapToNLLB("hi") == "hin_Deva" && MapToNLLB("es") == "spa_Latn"
    ensures MapToNLLB("de") == "deu_Latn" && MapToNLLB("zh") == "zho_Hans"
    ensures MapToNLLB("ja") == "jpn_Jpan" && MapToNLLB("ar") == "arb_Arab"
    ensures MapToNLLB("ru") == "rus_Cyrl" && MapToNLLB("pt") == "por_Latn"
  {
  }

  /** The table has ten entries. */
  lemma NllbTableSize()
    ensures |NllbTags| == 10
  {
  }

  /** Distinct known codes get distinct tags: the table is injective. */
  lemma MapToNLLBInjective(a: string, b: string)
    requires a in NllbTags && b in NllbTags
    requires MapToNLLB(a) == MapToNLLB(b)
    ensures a == b
  {
  }

  /** Mapping an already mapped tag always lands on the default tag, because
      no tag is itself a key. */
  lemma MapToNLLBTwice(x: string)
    ensures MapToNLLB(MapToNLLB(x)) == NllbDefault
  {
  }

  /** English maps to the default tag, so unknown codes are treated as English. */
  lemma MapToNLLBEnglish()
    ensures MapToNLLB(DefaultIso) == NllbDefault
  {
  }
}
