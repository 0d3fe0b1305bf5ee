/** The pure parts of the chat screen (src/components/ChatInterface.tsx):
    the language table and its search, the composer's send guard, the
    transcript export format, and the state changes of the End Chat and
    language buttons. Flags, rendering, speech, files, sharing and the
    simulated assistant reply are not modelled. */
module ChatInterface {
  import opened Strings
  import opened Wrappers
  import Sequences

  /** One entry of `allLanguages` (the flag emoji is left out). */
  datatype LanguageOption = LanguageOption(code: string, name: string)

  // The table is written in parts of ten so that each entry sits near the
  // top of a short sequence display; `AllLanguages` is their concatenation,
  // in source order.
  const Languages0: seq<LanguageOption> := [
    LanguageOption("en", "English"),
    LanguageOption("hi", "Hindi"),
    LanguageOption("es", "Spanish"),
    LanguageOption("fr", "French"),
    LanguageOption("de", "German"),
    LanguageOption("it", "Italian"),
    LanguageOption("pt", "Portuguese"),
    LanguageOption("ru", "Russian"),
    LanguageOption("zh", "Chinese"),
    LanguageOption("ja", "Japanese")
  ]
  const Languages1: seq<LanguageOption> := [
    LanguageOption("ko", "Korean"),
    LanguageOption("ar", "Arabic"),
    LanguageOption("tr", "Turkish"),
    LanguageOption("bn", "Bengali"),
    LanguageOption("pa", "Punjabi"),
    LanguageOption("mr", "Marathi"),
    LanguageOption("ta", "Tamil"),
    LanguageOption("te", "Telugu"),
    LanguageOption("gu", "Gujarati"),
    LanguageOption("kn", "Kannada")
  ]
  const Languages2: seq<LanguageOption> := [
    LanguageOption("ml", "Malayalam"),
    LanguageOption("or", "Odia"),
    LanguageOption("ur", "Urdu"),
    LanguageOption("fa", "Persian"),
    LanguageOption("ne", "Nepali"),
    LanguageOption("si", "Sinhala"),
    LanguageOption("my", "Burmese"),
    LanguageOption("th", "Thai"),
    LanguageOption("vi", "Vietnamese"),
    LanguageOption("id", "Indonesian")
  ]
  const Languages3: seq<LanguageOption> := [
    LanguageOption("ms", "Malay"),
    LanguageOption("tl", "Tagalog"),
    LanguageOption("km", "Khmer"),
    LanguageOption("lo", "Lao"),
    LanguageOption("mn", "Mongolian"),
    LanguageOption("am", "Amharic"),
    LanguageOption("so", "Somali"),
    LanguageOption("sw", "Swahili"),
    LanguageOption("zu", "Zulu"),
    LanguageOption("xh", "Xhosa")
  ]
  const Languages4: seq<LanguageOption> := [
    LanguageOption("af", "Afrikaans"),
    LanguageOption("ig", "Igbo"),
    LanguageOption("yo", "Yoruba"),
    LanguageOption("ha", "Hausa"),
    LanguageOption("he", "Hebrew"),
    LanguageOption("el", "Greek"),
    LanguageOption("sv", "Swedish"),
    LanguageOption("no", "Norwegian"),
    LanguageOption("da", "Danish"),
    LanguageOption("fi", "Finnish")
  ]
  const Languages5: seq<LanguageOption> := [
    LanguageOption("nl", "Dutch"),
    LanguageOption("pl", "Polish"),
    LanguageOption("uk", "Ukrainian"),
    LanguageOption("cs", "Czech"),
    LanguageOption("sk", "Slovak"),
    LanguageOption("sl", "Slovenian"),
    LanguageOption("hr", "Croatian"),
    LanguageOption("sr", "Serbian"),
    LanguageOption("bg", "Bulgarian"),
    LanguageOption("ro", "Romanian")
  ]
  const Languages6: seq<LanguageOption> := [
    LanguageOption("hu", "Hungarian"),
    LanguageOption("et", "Estonian"),
    LanguageOption("lv", "Latvian"),
    LanguageOption("lt", "Lithuanian"),
    LanguageOption("eu", "Basque"),
    LanguageOption("ga", "Irish"),
    LanguageOption("cy", "Welsh"),
    LanguageOption("gd", "Scottish Gaelic"),
    LanguageOption("is", "Icelandic"),
    LanguageOption("sq", "Albanian")
  ]
  const Languages7: seq<LanguageOption> := [
    LanguageOption("mk", "Macedonian"),
    LanguageOption("ka", "Georgian"),
    LanguageOption("kk", "Kazakh"),
    LanguageOption("uz", "Uzbek")
  ]

  const AllLanguages: seq<LanguageOption> :=
    Languages0 + Languages1 + Languages2 + Languages3 + Languages4 + Languages5 + Languages6 + Languages7

  /** How many languages the popup shows without a search. */
  const TopCount := 7

  const DefaultLanguage := "en"

  /** The position of each code in the table, written out. */
  function Position(code: string): int {
    match code
    case "en" => 0
    case "hi" => 1
    case "es" => 2
    case "fr" => 3
    case "de" => 4
    case "it" => 5
    case "pt" => 6
    case "ru" => 7
    case "zh" => 8
    case "ja" => 9
    case "ko" => 10
    case "ar" => 11
    case "tr" => 12
    case "bn" => 13
    case "pa" => 14
    case "mr" => 15
    case "ta" => 16
    case "te" => 17
    case "gu" => 18
    case "kn" => 19
    case "ml" => 20
    case "or" => 21
    case "ur" => 22
    case "fa" => 23
    case "ne" => 24
    case "si" => 25
    case "my" => 26
    case "th" => 27
    case "vi" => 28
    case "id" => 29
    case "ms" => 30
    case "tl" => 31
    case "km" => 32
    case "lo" => 33
    case "mn" => 34
    case "am" => 35
    case "so" => 36
    case "sw" => 37
    case "zu" => 38
    case "xh" => 39
    case "af" => 40
    case "ig" => 41
    case "yo" => 42
    case "ha" => 43
    case "he" => 44
    case "el" => 45
    case "sv" => 46
    case "no" => 47
    case "da" => 48
    case "fi" => 49
    case "nl" => 50
    case "pl" => 51
    case "uk" => 52
    case "cs" => 53
    case "sk" => 54
    case "sl" => 55
    case "hr" => 56
    case "sr" => 57
    case "bg" => 58
    case "ro" => 59
    case "hu" => 60
    case "et" => 61
    case "lv" => 62
    case "lt" => 63
    case "eu" => 64
    case "ga" => 65
    case "cy" => 66
    case "gd" => 67
    case "is" => 68
    case "sq" => 69
    case "mk" => 70
    case "ka" => 71
    case "kk" => 72
    case "uz" => 73
    case _ => -1
  }

  lemma PositionPart0()
    ensures forall i :: 0 <= i < |Languages0| ==> Position(Languages0[i].code) == 0 + i
  {
  }

  lemma PositionPart1()
    ensures forall i :: 0 <= i < |Languages1| ==> Position(Languages1[i].code) == 10 + i
  {
  }

  lemma PositionPart2()
    ensures forall i :: 0 <= i < |Languages2| ==> Position(Languages2[i].code) == 20 + i
  {
  }

  lemma PositionPart3()
    ensures forall i :: 0 <= i < |Languages3| ==> Position(Languages3[i].code) == 30 + i
  {
  }

  lemma PositionPart4()
    ensures forall i :: 0 <= i < |Languages4| ==> Position(Languages4[i].code) == 40 + i
  {
  }

  lemma PositionPart5()
    ensures forall i :: 0 <= i < |Languages5| ==> Position(Languages5[i].code) == 50 + i
  {
  }

  lemma PositionPart6()
    ensures forall i :: 0 <= i < |Languages6| ==> Position(Languages6[i].code) == 60 + i
  {
  }

  lemma PositionPart7()
    ensures forall i :: 0 <= i < |Languages7| ==> Position(Languages7[i].code) == 70 + i
  {
  }

  lemma TableSize()
    ensures |AllLanguages| == 74
  {
  }

  /** Each entry's code is at its own position. */
  lemma PositionOfEveryEntry()
    ensures forall i :: 0 <= i < |AllLanguages| ==> Position(AllLanguages[i].code) == i
  {
    TableSize();
    PositionPart0();
    PositionPart1();
    PositionPart2();
    PositionPart3();
    PositionPart4();
    PositionPart5();
    PositionPart6();
    PositionPart7();
  }

  function Codes(langs: seq<LanguageOption>): (r: seq<string>)
    ensures |r| == |langs| && forall i :: 0 <= i < |langs| ==> r[i] == langs[i].code
  {
    seq(|langs|, i requires 0 <= i < |langs| => langs[i].code)
  }

  /** No two entries share a code, so a code names one language and the
      list keys are unique. */
  lemma CodesDistinct()
    ensures Sequences.Distinct(Codes(AllLanguages))
  {
    PositionOfEveryEntry();
  }

  // ---------------------------------------------------------------------------
  // Looking up and searching languages
  // ---------------------------------------------------------------------------

  /** `langs.find(l => l.code === code)`: the first entry with the code. */
  function FindByCode(langs: seq<LanguageOption>, code: string): (r: Option<LanguageOption>)
    ensures r.Some? ==> r.value in langs && r.value.code == code
    ensures r.None? <==> forall i :: 0 <= i < |langs| ==> langs[i].code != code
    ensures r.Some? ==>
      exists i :: 0 <= i < |langs| && langs[i] == r.value && (forall j :: 0 <= j < i ==> langs[j].code != code)
  {
    if |langs| == 0 then None
    else if langs[0].code == code then Some(langs[0])
    else
      var r := FindByCode(langs[1..], code);
      if r.Some? then
        var i :| 0 < i + 1 <= |langs[1..]| && langs[1..][i] == r.value
          && forall j :: 0 <= j < i ==> langs[1..][j].code != code;
        assert langs[i + 1] == r.value;
        r
      else r
  }

  /** The entry shown for the selected language. */
  function CurrentLanguage(selected: string): (r: Option<LanguageOption>)
    ensures r.Some? ==> r.value in AllLanguages && r.value.code == selected
  {
    FindByCode(AllLanguages, selected)
  }

  /** With unique codes, looking up an entry's code finds that entry. */
  lemma CurrentLanguageOfEntry(i: nat)
    requires i < |AllLanguages|
    ensures CurrentLanguage(AllLanguages[i].code) == Some(AllLanguages[i])
  {
    CodesDistinct();
    var r := CurrentLanguage(AllLanguages[i].code);
    var k :| 0 <= k < |AllLanguages| && AllLanguages[k] == r.value
      && forall j :: 0 <= j < k ==> AllLanguages[j].code != AllLanguages[i].code;
    assert Codes(AllLanguages)[k] == AllLanguages[k].code;
    assert k == i;
  }

  /** Whether a language matches the search: its lower-cased name contains
      the lower-cased query. */
  predicate Matches(l: LanguageOption, query: string) {
    Contains(ToLower(l.name), ToLower(query))
  }

  /** The languages, in table order, whose lower-cased name contains the
      already lower-cased query. */
  function SearchResults(lowered: string): (r: seq<LanguageOption>)
    ensures Sequences.SubsequenceOf(r, AllLanguages)
    ensures forall l :: l in r <==> l in AllLanguages && Contains(ToLower(l.name), lowered)
  {
    Sequences.Filter(AllLanguages, (l: LanguageOption) => Contains(ToLower(l.name), lowered))
  }

  /** `filteredLangs`: the first seven languages while the search trims to
      nothing; otherwise, in table order, every language whose name matches
      the query as typed (untrimmed), ignoring case. */
  function FilteredLanguages(search: string): (r: seq<LanguageOption>)
    ensures Trim(search) == "" ==> r == AllLanguages[..TopCount]
    ensures Trim(search) != "" ==>
      && Sequences.SubsequenceOf(r, AllLanguages)
      && (forall l :: l in r <==> l in AllLanguages && Matches(l, search))
  {
    TableSize();
    if |Trim(search)| > 0 then SearchResults(ToLower(search)) else AllLanguages[..TopCount]
  }

  /** Lower-casing never turns a character into white space or back. */
  lemma AllSpaceToLower(s: string)
    ensures AllSpace(s) <==> AllSpace(ToLower(s))
  {
    if !AllSpace(s) {
      var i :| 0 <= i < |s| && !IsSpace(s[i]);
      assert ToLower(s)[i] == LowerChar(s[i]);
    }
  }

  /** The search ignores case: queries with the same lower-case form show
      the same languages. */
  lemma SearchIgnoresCase(a: string, b: string)
    requires ToLower(a) == ToLower(b)
    ensures FilteredLanguages(a) == FilteredLanguages(b)
  {
    TrimEmptyIffAllSpace(a);
    TrimEmptyIffAllSpace(b);
    AllSpaceToLower(a);
    AllSpaceToLower(b);
  }

  /** Searching for a language's own name finds it. */
  lemma SearchFindsOwnName(l: LanguageOption)
    requires l in AllLanguages && !AllSpace(l.name)
    ensures l in FilteredLanguages(l.name)
  {
    TrimEmptyIffAllSpace(l.name);
    ContainsItself(ToLower(l.name));
    assert Matches(l, l.name);
  }

  // ---------------------------------------------------------------------------
  // Screen state
  // ---------------------------------------------------------------------------

  datatype Sender = User | Assistant

  /** A chat bubble; `id` and `time` come from the clock at creation. */
  datatype Message = Message(id: nat, text: string, sender: Sender, time: nat)

  /** The state the pure handlers read and write. */
  datatype ScreenState = ScreenState(selectedLanguage: string, input: string, messages: seq<Message>,
                                     aiTyping: bool, langPopup: bool, langSearch: string)

  function InitialState(): (r: ScreenState)
    ensures r.messages == [] && r.input == "" && r.selectedLanguage == DefaultLanguage
    ensures !r.aiTyping && !r.langPopup && r.langSearch == ""
  {
    ScreenState(DefaultLanguage, "", [], false, false, "")
  }

  /** `sendMsg`: an input that trims to nothing changes nothing; otherwise
      one user message carrying the input as typed is appended, the input is
      cleared and the assistant is marked as typing. */
  function SendMsg(st: ScreenState, now: nat): (r: ScreenState)
    ensures AllSpace(st.input) ==> r == st
    ensures !AllSpace(st.input) ==>
      && r.messages == st.messages + [Message(now, st.input, User, now)]
      && r.input == "" && r.aiTyping
      && r.selectedLanguage == st.selectedLanguage && r.langPopup == st.langPopup && r.langSearch == st.langSearch
  {
    TrimEmptyIffAllSpace(st.input);
    if Trim(st.input) == "" then st
    else st.(messages := st.messages + [Message(now, st.input, User, now)], input := "", aiTyping := true)
  }

  /** The End Chat button empties the conversation and nothing else. */
  function EndChat(st: ScreenState): (r: ScreenState)
    ensures r.messages == [] && r.(messages := st.messages) == st
  {
    st.(messages := [])
  }

  /** The language button opens the popup with an empty search. */
  function OpenLanguagePopup(st: ScreenState): (r: ScreenState)
    ensures r.langPopup && r.langSearch == ""
    ensures FilteredLanguages(r.langSearch) == AllLanguages[..TopCount]
    ensures r.(langPopup := st.langPopup, langSearch := st.langSearch) == st
  {
    TrimEmptyIffAllSpace("");
    st.(langSearch := "", langPopup := true)
  }

  /** `selectLanguage(code)`: selects the code and closes the popup. */
  function SelectLanguage(st: ScreenState, code: string): (r: ScreenState)
    ensures r.selectedLanguage == code && !r.langPopup
    ensures r.(selectedLanguage := st.selectedLanguage, langPopup := st.langPopup) == st
  {
    st.(selectedLanguage := code, langPopup := false)
  }

  /** Picking an entry from the popup shows that entry as the current
      language. */
  lemma SelectEntryShowsIt(st: ScreenState, i: nat)
    requires i < |AllLanguages|
    ensures CurrentLanguage(SelectLanguage(st, AllLanguages[i].code).selectedLanguage) == Some(AllLanguages[i])
  {
    CurrentLanguageOfEntry(i);
  }

  // ---------------------------------------------------------------------------
  // Transcript export
  // ---------------------------------------------------------------------------

  const TranscriptSeparator := "\n\n"

  function SenderName(s: Sender): string {
    match s
    case User => "user"
    case Assistant => "assistant"
  }

  /** One transcript line: the sender in capitals, a colon, the text. */
  function Line(m: Message): string {
    ToUpper(SenderName(m.sender)) + ": " + m.text
  }

  function Lines(ms: seq<Message>): (r: seq<string>)
    ensures |r| == |ms| && forall i :: 0 <= i < |ms| ==> r[i] == Line(ms[i])
  {
    seq(|ms|, i requires 0 <= i < |ms| => Line(ms[i]))
  }

  /** `generateChatText`: the lines of all messages joined by blank lines. */
  function ChatText(ms: seq<Message>): (r: string)
    ensures ms == [] ==> r == ""
    ensures |ms| == 1 ==> r == Line(ms[0])
  {
    Join(Lines(ms), TranscriptSeparator)
  }

  /** The sender labels are the upper-case words USER and ASSISTANT. */
  lemma SenderLabels()
    ensures ToUpper(SenderName(User)) == "USER"
    ensures ToUpper(SenderName(Assistant)) == "ASSISTANT"
  {
  }

  /** Appending a message appends a blank line and its line to the
      transcript. */
  lemma ChatTextAppend(ms: seq<Message>, m: Message)
    requires ms != []
    ensures ChatText(ms + [m]) == ChatText(ms) + TranscriptSeparator + Line(m)
  {
    assert Lines(ms + [m]) == Lines(ms) + Lines([m]);
    JoinAppend(Lines(ms), Lines([m]), TranscriptSeparator);
  }

  /** A user message's transcript line is `USER: ` followed by its text. */
  lemma UserLine(m: Message)
    requires m.sender == User
    ensures Line(m) == "USER: " + m.text
  {
    SenderLabels();
  }

  /** Sending text into a non-empty conversation extends the exported
      transcript by exactly one paragraph, the line of the new user message,
      after a blank line; End Chat leaves an empty transcript. */
  lemma SendExtendsTranscript(st: ScreenState, now: nat)
    requires st.messages != [] && !AllSpace(st.input)
    ensures ChatText(SendMsg(st, now).messages)
         == ChatText(st.messages) + TranscriptSeparator + Line(Message(now, st.input, User, now))
    ensures ChatText(EndChat(st).messages) == ""
  {
    var m := Message(now, st.input, User, now);
    assert SendMsg(st, now).messages == st.messages + [m];
    ChatTextAppend(st.messages, m);
  }
}
