/**
  The prompt assembler.  Each Jinja2 template is fixed text with values
  inserted verbatim (no autoescaping is configured, and no template ends
  in a newline for Jinja2 to drop), so a rendered template is the
  concatenation of its fixed pieces and of the inserted values.  The style
  profile arrives as the JSON value read back from the profile file.
*/
module PromptTemplates {
  import opened Wrappers
  import opened Strings
  import opened Counting
  import opened Json
  import opened Chars
  import opened StyleProfile

  // The short fixed pieces: the text between two inserted values, and the
  // labels in front of the values the prompts show.
  const SystemAfterLength: string := " kelime\n- Ortalama cümle uzunluğu: "
  const SystemAfterSentence: string := " kelime\n- Leksikal çeşitlilik: "
  const CountLabel: string := "\n- Toplam doküman sayısı: "
  const TopicLabel: string := "KONU: "
  const TitleLabel: string := "Başlık: "
  const SectionAfterArticle: string := "\nBölüm: "
  const WordsLabel: string := "- Tahmini uzunluk: "
  const SectionAfterWords: string := " kelime\n- Ana noktalar: "
  const SectionAfterPoints: string := "\n- Minimum atıf: "
  const CitationsUnit: string := " adet"
  const CitationAfterTopic: string := "\nGEREKEN KAYNAK SAYISI: "

  /**
    The long fixed pieces of the four templates.  The functions below take
    them as a parameter, so that what is proved about a prompt holds for
    any wording of its instructions; `StandardTexts` is the wording of the
    module's templates.
  */
  datatype TemplateTexts = TemplateTexts(
    systemHead: string,
    systemRules: string,
    outlineIntro: string,
    outlineFormat: string,
    sectionIntro: string,
    sectionRequirements: string,
    sectionTask: string,
    citationIntro: string,
    citationFormat: string)

  const StandardTexts: TemplateTexts := TemplateTexts(
    "Sen bir akademik makale yazarısın. Türk sanat tarihi ve eleştiri dergilerine yazıyorsun.\n\nSTİL PROFİLİ:\n- Ortalama makale uzunluğu: ",
    "\n\nYAZIM KURALLARI:\n1. APA-7 formatında atıf yap\n2. Metin içi atıf: (Yazar, Yıl) veya (Yazar, Yıl, s. X)\n3. Her görseli şöyle referansla: \"Görsel X. Sanatçı, Eser Adı, Yıl, Teknik, Kaynak.\"\n4. Akademik ama akıcı bir dil kullan\n5. Paragraflar arası geçişleri güçlendir\n\nSIK KULLANILAN TERİMLER:\n",
    "\n\nGÖREV: Aşağıdaki konu için detaylı bir makale taslağı oluştur.\n\n",
    "\n\nTASLAK ŞEKLİ:\n{\n  \"title\": \"Makale başlığı\",\n  \"abstract_tr\": \"150-200 kelimelik Türkçe özet\",\n  \"abstract_en\": \"150-200 kelimelik İngilizce özet\",\n  \"keywords_tr\": [\"anahtar\", \"kelimeler\"],\n  \"keywords_en\": [\"key\", \"words\"],\n  \"sections\": [\n    {\n      \"title\": \"Giriş\",\n      \"subsections\": [\"Alt başlık 1\", \"Alt başlık 2\"],\n      \"estimated_words\": 800,\n      \"key_points\": [\"Nokta 1\", \"Nokta 2\"],\n      \"required_citations\": 3\n    }\n  ],\n  \"required_visuals\": [\n    {\n      \"number\": 1,\n      \"description\": \"Görsel açıklaması\",\n      \"suggested_source\": \"Kaynak önerisi\"\n    }\n  ],\n  \"min_references\": 25\n}\n\nSADECE JSON döndür, başka bir şey yazma.",
    "\n\nMAKALE BAĞLAMI:\n",
    "\n\nBÖLÜM GEREKSİNİMLERİ:\n",
    "\n\nGÖREV: Bu bölümü yaz.\n\nKURALLAR:\n1. Atıfları eksiksiz yap: (Yazar, Yıl, s. X)\n2. Akademik ama sıkıcı olma\n3. Her paragraf 4-6 cümle olsun\n4. Geçişleri güçlendir (\"Bu bağlamda\", \"Diğer yandan\", vb.)\n\nBÖLÜM METNİ:",
    "\n\nGÖREV: Aşağıdaki konu için akademik kaynakça listesi oluştur (APA-7).\n\n",
    "\n\nKAYNAK TİPLERİ (dengeli dağılım):\n- Kitaplar: %30\n- Makale: %40\n- Katalog/Sergi: %20\n- Web kaynakları: %10\n\nFORMAT:\nHer kaynak şu formatta:\n{\n  \"type\": \"book|article|catalog|web\",\n  \"apa_citation\": \"Tam APA-7 formatında kaynak\",\n  \"author\": \"Yazar adı\",\n  \"year\": \"2020\",\n  \"title\": \"Eser başlığı\",\n  \"doi\": \"10.xxxx/xxxxx (varsa)\"\n}\n\nSADECE JSON array döndür.")
  /**
    Conversions the model takes as given: Python's `str` of a float and of
    a list or dictionary, and `int()` of a string.
  */
  datatype Rendering = Rendering(
    float: real -> string,
    container: Json -> string,
    parseInt: string -> Option<int>)

  /** The exceptions rendering a preamble can raise. */
  datatype PromptError =
    | KeyError(key: string)         // a key missing from a dictionary
    | TypeError                     // indexing a non-dictionary, or `int()` of null, a list or a dictionary
    | AttributeError(name: string)  // `.get` or `.keys` on a value that is not a dictionary
    | ValueError                    // `int()` of a string that is not an integer

  /** `str(v)`: the text Jinja2 inserts for a value. */
  function Str(v: Json, rd: Rendering): string {
    match v
    case JNull => "None"
    case JBool(b) => if b then "True" else "False"
    case JInt(i) => IntToString(i)
    case JFloat(r) => rd.float(r)
    case JStr(s) => s
    case JList(_) => rd.container(v)
    case JObject(_) => rd.container(v)
  }

  /**
    What Jinja2 shows for the scalars: `None`, `True` and `False` as Python
    spells them, a string as it is, and distinct integers as distinct texts.
  */
  lemma StrScalars(rd: Rendering, s: string, a: int, b: int)
    ensures Str(JNull, rd) == "None"
    ensures Str(JBool(true), rd) == "True" && Str(JBool(false), rd) == "False"
    ensures Str(JStr(s), rd) == s
    ensures Str(JInt(a), rd) == Str(JInt(b), rd) <==> a == b
  {
    if Str(JInt(a), rd) == Str(JInt(b), rd) {
      IntToStringInjective(a, b);
    }
  }

  /** `int(x)` for a float: truncation toward zero. */
  function Truncate(r: real): (i: int)
    ensures r >= 0.0 ==> 0 <= i && i as real <= r < i as real + 1.0
    ensures r < 0.0 ==> i <= 0 && i as real - 1.0 < r <= i as real
  {
    if r >= 0.0 then r.Floor else -((-r).Floor)
  }

  /** `int(v)` */
  function ToInt(v: Json, rd: Rendering): (r: Result<int, PromptError>)
    ensures v.JInt? ==> r == Ok(v.i)
    ensures v.JFloat? ==> r == Ok(Truncate(v.r))
    ensures (v.JNull? || v.JList? || v.JObject?) ==> r == Err(TypeError)
  {
    match v
    case JInt(i) => Ok(i)
    case JBool(b) => Ok(if b then 1 else 0)
    case JFloat(x) => Ok(Truncate(x))
    case JStr(s) => (match rd.parseInt(s) case Some(i) => Ok(i) case None => Err(ValueError))
    case _ => Err(TypeError)
  }

  /** `v[key]` */
  function Index(v: Json, key: string): (r: Result<Json, PromptError>)
    ensures r.Ok? <==> v.JObject? && key in Names(v.fields)
    ensures r.Ok? ==> Lookup(v.fields, key) == Some(r.value)
    ensures v.JObject? && key !in Names(v.fields) ==> r == Err(KeyError(key))
  {
    match v
    case JObject(fields) => (match Lookup(fields, key) case Some(x) => Ok(x) case None => Err(KeyError(key)))
    case _ => Err(TypeError)
  }

  /** `list(v.keys())` */
  function KeysOf(v: Json): (r: Result<seq<string>, PromptError>)
    ensures r.Ok? <==> v.JObject?
    ensures r.Ok? ==> r.value == KeyList(v.fields)
  {
    match v
    case JObject(fields) => Ok(KeyList(fields))
    case _ => Err(AttributeError("keys"))
  }


  /** SYSTEM_PROMPT rendered with its five values. */
  function SystemText(t: TemplateTexts, avgLength: string, avgSentence: string, diversity: string,
                      docCount: string, topTerms: string): string {
    Concat([t.systemHead, avgLength, SystemAfterLength, avgSentence, SystemAfterSentence, diversity,
            CountLabel, docCount, t.systemRules, topTerms])
  }

  /** `profile.get('avg_doc_length', 4000)` */
  function AvgDocLength(profile: Json): Json
    requires profile.JObject?
  {
    Lookup(profile.fields, "avg_doc_length").GetOr(JInt(4000))
  }

  /**
    The system preamble rendered from the profile.  Python evaluates the
    keyword arguments in order, so the first one that raises decides the
    error.
  */
  function Preamble(t: TemplateTexts, profile: Json, rd: Rendering): Result<string, PromptError> {
    if !profile.JObject? then Err(AttributeError("get"))
    else
      var avgLength :- ToInt(AvgDocLength(profile), rd);
      var sentence :- Index(profile, "sentence_structure");
      var avgSentence :- Index(sentence, "avg_sentence_length");
      var vocabulary :- Index(profile, "vocabulary");
      var diversity :- Index(vocabulary, "lexical_diversity");
      var docCount :- Index(profile, "document_count");
      var top :- Index(vocabulary, "top_50_words");
      var keys :- KeysOf(top);
      Ok(SystemText(t, IntToString(avgLength), Str(avgSentence, rd), Str(diversity, rd), Str(docCount, rd),
                    Join(", ", Take(keys, 20))))
  }

  function OutlineText(t: TemplateTexts, system: string, topic: string): string {
    Concat([system, t.outlineIntro, TopicLabel, topic, t.outlineFormat])
  }

  function SectionText(t: TemplateTexts, system: string, articleTitle: string, sectionTitle: string,
                       estimatedWords: string, keyPoints: string, minCitations: string): string {
    Concat([system, t.sectionIntro, TitleLabel, articleTitle, SectionAfterArticle, sectionTitle,
            t.sectionRequirements, WordsLabel, estimatedWords, SectionAfterWords, keyPoints,
            SectionAfterPoints, minCitations, CitationsUnit, t.sectionTask])
  }

  function CitationText(t: TemplateTexts, system: string, topic: string, minReferences: string): string {
    Concat([system, t.citationIntro, TopicLabel, topic, CitationAfterTopic, minReferences, t.citationFormat])
  }

  /** `get_outline_prompt(topic, profile)` */
  function GetOutlinePrompt(t: TemplateTexts, topic: string, profile: Json, rd: Rendering)
    : Result<string, PromptError> {
    var system :- Preamble(t, profile, rd);
    Ok(OutlineText(t, system, topic))
  }

  /** `get_section_prompt(profile, article_title, section_title, estimated_words, key_points, min_citations)` */
  function GetSectionPrompt(t: TemplateTexts, profile: Json, articleTitle: string, sectionTitle: string,
                            estimatedWords: int, keyPoints: seq<string>, minCitations: int, rd: Rendering)
    : Result<string, PromptError> {
    var system :- Preamble(t, profile, rd);
    Ok(SectionText(t, system, articleTitle, sectionTitle, IntToString(estimatedWords), Join(", ", keyPoints),
                   IntToString(minCitations)))
  }

  /** `get_citation_prompt(profile, topic, min_references=25)` */
  function GetCitationPrompt(t: TemplateTexts, profile: Json, topic: string, rd: Rendering, minReferences: int := 25)
    : Result<string, PromptError> {
    var system :- Preamble(t, profile, rd);
    Ok(CitationText(t, system, topic, IntToString(minReferences)))
  }

  /**
    The three prompts render their template with the preamble as
    `system_prompt`, and fail exactly when the preamble fails, with its
    error.
  */
  lemma PromptsSharePreamble(t: TemplateTexts, profile: Json, rd: Rendering, topic: string, articleTitle: string,
                             sectionTitle: string, estimatedWords: int, keyPoints: seq<string>,
                             minCitations: int, minReferences: int)
    ensures var p := Preamble(t, profile, rd);
      var o := GetOutlinePrompt(t, topic, profile, rd);
      var s := GetSectionPrompt(t, profile, articleTitle, sectionTitle, estimatedWords, keyPoints, minCitations, rd);
      var c := GetCitationPrompt(t, profile, topic, rd, minReferences);
      (p.Err? ==> o == Err(p.error) && s == Err(p.error) && c == Err(p.error)) &&
      (p.Ok? ==> o.Ok? && s.Ok? && c.Ok? &&
                 IsPrefix(p.value, o.value) && IsPrefix(p.value, s.value) && IsPrefix(p.value, c.value))
  {
    var p := Preamble(t, profile, rd);
    if p.Ok? {
      var sys := p.value;
      var o := [sys, t.outlineIntro, TopicLabel, topic, t.outlineFormat];
      var s := [sys, t.sectionIntro, TitleLabel, articleTitle, SectionAfterArticle, sectionTitle,
                t.sectionRequirements, WordsLabel, IntToString(estimatedWords), SectionAfterWords,
                Join(", ", keyPoints), SectionAfterPoints, IntToString(minCitations), CitationsUnit, t.sectionTask];
      var c := [sys, t.citationIntro, TopicLabel, topic, CitationAfterTopic, IntToString(minReferences),
                t.citationFormat];
      assert Concat(o) == sys + Concat(o[1..]);
      assert Concat(s) == sys + Concat(s[1..]);
      assert Concat(c) == sys + Concat(c[1..]);
    }
  }

  /** `fields[key]` is present and is a dictionary. */
  predicate HasObject(fields: seq<(string, Json)>, key: string) {
    Lookup(fields, key).Some? && Lookup(fields, key).value.JObject?
  }

  /**
    A profile the preamble can be rendered from: a dictionary whose length,
    if present, `int()` accepts, holding `sentence_structure` and
    `vocabulary` dictionaries, the keys read from them, `document_count`,
    and a `top_50_words` dictionary.
  */
  predicate Renderable(profile: Json, rd: Rendering) {
    profile.JObject? && ToInt(AvgDocLength(profile), rd).Ok? &&
    HasObject(profile.fields, "sentence_structure") &&
    "avg_sentence_length" in Names(Lookup(profile.fields, "sentence_structure").value.fields) &&
    HasObject(profile.fields, "vocabulary") &&
    "lexical_diversity" in Names(Lookup(profile.fields, "vocabulary").value.fields) &&
    "document_count" in Names(profile.fields) &&
    HasObject(Lookup(profile.fields, "vocabulary").value.fields, "top_50_words")
  }

  /** The preamble renders exactly from the renderable profiles; `avg_doc_length` alone may be missing. */
  lemma RenderableIff(t: TemplateTexts, profile: Json, rd: Rendering)
    ensures Preamble(t, profile, rd).Ok? <==> Renderable(profile, rd)
  {
  }

  /**
    A rendered preamble shows, in order, `int()` of the length, `str()` of
    the average sentence length, of the lexical diversity and of the
    document count, and the first 20 keys of `top_50_words` joined by ", ".
  */
  lemma PreambleRendersProfile(t: TemplateTexts, profile: Json, rd: Rendering)
    requires Preamble(t, profile, rd).Ok?
    ensures ToInt(AvgDocLength(profile), rd).Ok? &&
      var sentence := Lookup(profile.fields, "sentence_structure").value;
      var vocabulary := Lookup(profile.fields, "vocabulary").value;
      Preamble(t, profile, rd).value == SystemText(t,
        IntToString(ToInt(AvgDocLength(profile), rd).value),
        Str(Lookup(sentence.fields, "avg_sentence_length").value, rd),
        Str(Lookup(vocabulary.fields, "lexical_diversity").value, rd),
        Str(Lookup(profile.fields, "document_count").value, rd),
        Join(", ", Take(KeyList(Lookup(vocabulary.fields, "top_50_words").value.fields), 20)))
  {
    RenderableIff(t, profile, rd);
  }

  /**
    The keyword arguments are evaluated in order: a length `int()` rejects
    raises first, then a missing `sentence_structure`.
  */
  lemma FirstErrors(t: TemplateTexts, profile: Json, rd: Rendering)
    requires profile.JObject?
    ensures ToInt(AvgDocLength(profile), rd).Err? ==>
      Preamble(t, profile, rd) == Err(ToInt(AvgDocLength(profile), rd).error)
    ensures ToInt(AvgDocLength(profile), rd).Ok? && "sentence_structure" !in Names(profile.fields) ==>
      Preamble(t, profile, rd) == Err(KeyError("sentence_structure"))
  {
  }

  /** An empty dictionary fails on `sentence_structure`: the length has a default, the next key has none. */
  lemma EmptyProfileFails(t: TemplateTexts, rd: Rendering)
    ensures Preamble(t, JObject([]), rd) == Err(KeyError("sentence_structure"))
  {
  }

  /** A value that is not a dictionary fails on `profile.get`. */
  lemma NonObjectProfileFails(t: TemplateTexts, profile: Json, rd: Rendering)
    requires !profile.JObject?
    ensures Preamble(t, profile, rd) == Err(AttributeError("get"))
  {
  }

  /** The length shown is 4000 when `avg_doc_length` is missing, and a float length truncated toward zero. */
  lemma LengthDefault(profile: Json, rd: Rendering)
    requires profile.JObject?
    ensures "avg_doc_length" !in Names(profile.fields) ==> ToInt(AvgDocLength(profile), rd) == Ok(4000)
    ensures var given := Lookup(profile.fields, "avg_doc_length");
      given.Some? && given.value.JFloat? ==> ToInt(AvgDocLength(profile), rd) == Ok(Truncate(given.value.r))
  {
  }

  /**
    SYSTEM_PROMPT shows the length right after its head, the sentence
    length, the diversity and the count each after its label, and ends
    with the term list.
  */
  lemma SystemTextShows(t: TemplateTexts, avgLength: string, avgSentence: string, diversity: string,
                        docCount: string, topTerms: string)
    ensures var r := SystemText(t, avgLength, avgSentence, diversity, docCount, topTerms);
      IsPrefix(t.systemHead + avgLength + SystemAfterLength, r) &&
      Contains(r, SystemAfterLength + avgSentence + SystemAfterSentence + diversity + CountLabel + docCount +
                  t.systemRules) &&
      IsSuffix(topTerms, r)
  {
    var v := [t.systemHead, avgLength, SystemAfterLength, avgSentence, SystemAfterSentence, diversity,
              CountLabel, docCount, t.systemRules, topTerms];
    ConcatHead3(v);
    ConcatContains7(v, 2);
    ConcatLast(v);
  }

  /**
    The term list holds the first min(20, n) keys, in stored order, and
    is a prefix of the list of all the keys.
  */
  lemma TermList(keys: seq<string>)
    ensures |Take(keys, 20)| == (if |keys| < 20 then |keys| else 20)
    ensures IsPrefix(Join(", ", Take(keys, 20)), Join(", ", keys))
  {
    JoinPrefix(", ", keys, |Take(keys, 20)|);
  }

  /** ARTICLE_OUTLINE shows the preamble first and the topic after its label. */
  lemma OutlineShowsTopic(t: TemplateTexts, system: string, topic: string)
    ensures IsPrefix(system, OutlineText(t, system, topic))
    ensures Contains(OutlineText(t, system, topic), TopicLabel + topic)
  {
    var o := [system, t.outlineIntro, TopicLabel, topic, t.outlineFormat];
    assert Concat(o) == system + Concat(o[1..]);
    ConcatContains2(o, 2);
  }

  /** SYSTEM_PROMPT shows the document count right after its label. */
  lemma SystemShowsCount(t: TemplateTexts, avgLength: string, avgSentence: string, diversity: string,
                         docCount: string, topTerms: string)
    ensures Contains(SystemText(t, avgLength, avgSentence, diversity, docCount, topTerms), CountLabel + docCount)
  {
    var v := [t.systemHead, avgLength, SystemAfterLength, avgSentence, SystemAfterSentence, diversity,
              CountLabel, docCount, t.systemRules, topTerms];
    ConcatContains2(v, 6);
  }

  /** What the preamble shows, the outline prompt shows too. */
  lemma OutlineKeepsSystem(t: TemplateTexts, system: string, topic: string, x: string)
    requires Contains(system, x)
    ensures Contains(OutlineText(t, system, topic), x)
  {
    OutlineShowsTopic(t, system, topic);
    ContainsWithin(system, OutlineText(t, system, topic), x);
  }

  /**
    A rendered outline prompt shows the topic after its label and the
    profile's `document_count` after its label.
  */
  lemma OutlineShowsCount(t: TemplateTexts, topic: string, profile: Json, rd: Rendering)
    requires Preamble(t, profile, rd).Ok?
    ensures var o := GetOutlinePrompt(t, topic, profile, rd);
      o.Ok? && Contains(o.value, TopicLabel + topic) &&
      Contains(o.value, CountLabel + Str(Lookup(profile.fields, "document_count").value, rd))
  {
    var system := Preamble(t, profile, rd).value;
    PreambleRendersProfile(t, profile, rd);
    var sentence := Lookup(profile.fields, "sentence_structure").value;
    var vocabulary := Lookup(profile.fields, "vocabulary").value;
    var count := Str(Lookup(profile.fields, "document_count").value, rd);
    SystemShowsCount(t, IntToString(ToInt(AvgDocLength(profile), rd).value),
      Str(Lookup(sentence.fields, "avg_sentence_length").value, rd),
      Str(Lookup(vocabulary.fields, "lexical_diversity").value, rd), count,
      Join(", ", Take(KeyList(Lookup(vocabulary.fields, "top_50_words").value.fields), 20)));
    OutlineShowsTopic(t, system, topic);
    OutlineKeepsSystem(t, system, topic, CountLabel + count);
  }

  /**
    The outline prompt for an analysed corpus shows the topic and the
    number of documents, in decimal.
  */
  lemma AnalysisOutlineShowsCount(t: TemplateTexts, topic: string, texts: seq<string>, rules: CharRules,
                                  rd: Rendering)
    ensures var o := GetOutlinePrompt(t, topic, ProfileToJson(ProfileOf(texts, rules)), rd);
      o.Ok? && Contains(o.value, TopicLabel + topic) && Contains(o.value, CountLabel + IntToString(|texts|))
  {
    ProfileOutlineShowsCount(t, topic, ProfileOf(texts, rules), rd);
  }

  /** The outline prompt for a written profile shows the topic and the profile's document count. */
  lemma ProfileOutlineShowsCount(t: TemplateTexts, topic: string, p: Profile, rd: Rendering)
    ensures var o := GetOutlinePrompt(t, topic, ProfileToJson(p), rd);
      o.Ok? && Contains(o.value, TopicLabel + topic) && Contains(o.value, CountLabel + IntToString(p.documentCount))
  {
    var j := ProfileToJson(p);
    ProfileRenderable(p, rd);
    RenderableIff(t, j, rd);
    OutlineShowsCount(t, topic, j, rd);
    ProfileJsonFields(p);
  }

  /** ARTICLE_OUTLINE as three parts: the text before the topic, the topic, the text after it. */
  lemma OutlineParts(t: TemplateTexts, system: string, topic: string)
    ensures OutlineText(t, system, topic) == (system + t.outlineIntro + TopicLabel) + topic + t.outlineFormat
  {
    var o := [system, t.outlineIntro, TopicLabel, topic, t.outlineFormat];
    ConcatWindow(o, 3, 4);
    assert o[..3] == [system, t.outlineIntro, TopicLabel];
    Concat3(system, t.outlineIntro, TopicLabel);
    assert o[3..4] == [topic];
    assert Concat([topic]) == topic + Concat([topic][1..]);
    assert o[4..] == [t.outlineFormat];
    assert Concat([t.outlineFormat]) == t.outlineFormat + Concat([t.outlineFormat][1..]);
  }

  /**
    Two outlines over the same preamble agree everywhere except in the
    topic span, so different topics give different outlines.
  */
  lemma OutlineTopicSpan(t: TemplateTexts, system: string, t1: string, t2: string)
    ensures var r1 := OutlineText(t, system, t1);
      var r2 := OutlineText(t, system, t2);
      var n := |system| + |t.outlineIntro| + |TopicLabel|;
      n + |t1| <= |r1| && n + |t2| <= |r2| &&
      r1[..n] == r2[..n] &&
      r1[n..n + |t1|] == t1 && r2[n..n + |t2|] == t2 &&
      r1[n + |t1|..] == r2[n + |t2|..] == t.outlineFormat &&
      (r1 == r2 ==> t1 == t2)
  {
    var head := system + t.outlineIntro + TopicLabel;
    OutlineParts(t, system, t1);
    OutlineParts(t, system, t2);
    var r1 := OutlineText(t, system, t1);
    var r2 := OutlineText(t, system, t2);
    var n := |head|;
    assert r1[..n] == head && r2[..n] == head;
    assert r1[n..n + |t1|] == t1 && r2[n..n + |t2|] == t2;
    assert r1[n + |t1|..] == t.outlineFormat && r2[n + |t2|..] == t.outlineFormat;
    if r1 == r2 {
      assert |t1| == |t2|;
    }
  }

  /** SECTION_WRITER shows both titles, then the estimated words, the key points and the citation minimum. */
  lemma SectionShowsFields(t: TemplateTexts, system: string, articleTitle: string, sectionTitle: string,
                           estimatedWords: string, keyPoints: string, minCitations: string)
    ensures var r := SectionText(t, system, articleTitle, sectionTitle, estimatedWords, keyPoints, minCitations);
      IsPrefix(system, r) &&
      Contains(r, TitleLabel + articleTitle + SectionAfterArticle + sectionTitle) &&
      Contains(r, WordsLabel + estimatedWords + SectionAfterWords + keyPoints + SectionAfterPoints +
                  minCitations + CitationsUnit)
  {
    var s := [system, t.sectionIntro, TitleLabel, articleTitle, SectionAfterArticle, sectionTitle,
              t.sectionRequirements, WordsLabel, estimatedWords, SectionAfterWords, keyPoints, SectionAfterPoints,
              minCitations, CitationsUnit, t.sectionTask];
    assert Concat(s) == system + Concat(s[1..]);
    ConcatContains4(s, 2);
    ConcatContains7(s, 7);
  }

  /** CITATION_GENERATOR shows the topic and, after it, the number of references asked for. */
  lemma CitationShowsMinimum(t: TemplateTexts, system: string, topic: string, minReferences: string)
    ensures IsPrefix(system, CitationText(t, system, topic, minReferences))
    ensures Contains(CitationText(t, system, topic, minReferences),
                     TopicLabel + topic + CitationAfterTopic + minReferences)
  {
    var c := [system, t.citationIntro, TopicLabel, topic, CitationAfterTopic, minReferences, t.citationFormat];
    assert Concat(c) == system + Concat(c[1..]);
    ConcatContains4(c, 2);
  }

  /** Without `min_references` the citation prompt asks for 25. */
  lemma CitationDefault(t: TemplateTexts, profile: Json, topic: string, rd: Rendering)
    ensures GetCitationPrompt(t, profile, topic, rd) == GetCitationPrompt(t, profile, topic, rd, 25)
  {
  }

  /** The members of the profile file that the preamble reads, as the analyzer writes them. */
  lemma ProfileJsonFields(p: Profile)
    ensures var f := ProfileToJson(p).fields;
      Lookup(f, "document_count") == Some(JInt(p.documentCount)) &&
      Lookup(f, "avg_doc_length") == Some(NumJson(p.avgDocLength)) &&
      Lookup(f, "vocabulary") == Some(VocabularyJson(p.vocabulary)) &&
      Lookup(f, "sentence_structure") == Some(SentenceJson(p.sentenceStructure))
  {
    var f := ProfileToJson(p).fields;
    assert Names(f) == ["document_count", "avg_doc_length", "vocabulary", "sentence_structure", "citations",
                        "terminology"];
    LookupUnique(f, 0);
    LookupUnique(f, 1);
    LookupUnique(f, 2);
    LookupUnique(f, 3);
  }

  /** The nested members the preamble reads. */
  lemma ProfileJsonNested(p: Profile)
    ensures var vf := VocabularyJson(p.vocabulary).fields;
      Lookup(vf, "top_50_words") == Some(JObject(CountsJson(p.vocabulary.top50Words))) &&
      Lookup(vf, "lexical_diversity") == Some(NumJson(p.vocabulary.lexicalDiversity))
    ensures Lookup(SentenceJson(p.sentenceStructure).fields, "avg_sentence_length") ==
      Some(NumJson(p.sentenceStructure.avgSentenceLength))
  {
    var vf := VocabularyJson(p.vocabulary).fields;
    assert Names(vf) == ["total_tokens", "unique_tokens", "top_50_words", "lexical_diversity"];
    LookupUnique(vf, 2);
    LookupUnique(vf, 3);
    var sf := SentenceJson(p.sentenceStructure).fields;
    assert Names(sf) == ["avg_sentence_length", "median_sentence_length", "total_sentences"];
    LookupUnique(sf, 0);
  }

  /** The keys of a written counts dictionary are the counted items, when none repeats. */
  lemma CountsKeys(c: seq<(string, nat)>)
    requires NoDuplicates(Keys(c))
    ensures KeyList(CountsJson(c)) == Keys(c)
  {
    assert Names(CountsJson(c)) == Keys(c);
    KeyListUnique(CountsJson(c));
  }

  /** The top-level members of a written profile that the preamble reads. */
  lemma ProfileJsonTop(p: Profile)
    ensures var j := ProfileToJson(p);
      HasObject(j.fields, "sentence_structure") &&
      HasObject(j.fields, "vocabulary") && "document_count" in Names(j.fields)
  {
    ProfileJsonFields(p);
  }

  /** The written length is a number, which `int()` accepts. */
  lemma ProfileJsonLength(p: Profile, rd: Rendering)
    ensures ToInt(AvgDocLength(ProfileToJson(p)), rd).Ok?
  {
    ProfileJsonFields(p);
    assert AvgDocLength(ProfileToJson(p)) == NumJson(p.avgDocLength);
  }

  /** The nested members of a written profile that the preamble reads. */
  lemma ProfileJsonInner(p: Profile)
    ensures "avg_sentence_length" in Names(SentenceJson(p.sentenceStructure).fields)
    ensures "lexical_diversity" in Names(VocabularyJson(p.vocabulary).fields)
    ensures HasObject(VocabularyJson(p.vocabulary).fields, "top_50_words")
  {
    ProfileJsonNested(p);
  }

  /** The profile the analyzer writes is renderable. */
  lemma ProfileRenderable(p: Profile, rd: Rendering)
    ensures Renderable(ProfileToJson(p), rd)
  {
    ProfileJsonTop(p);
    ProfileJsonLength(p, rd);
    ProfileJsonInner(p);
    ProfileJsonFields(p);
  }

  /**
    The profile the analyzer writes renders, and its term list is the
    first 20 of the most common words.
  */
  lemma ProfileWritesTerms(t: TemplateTexts, p: Profile, rd: Rendering)
    requires NoDuplicates(Keys(p.vocabulary.top50Words))
    ensures var r := Preamble(t, ProfileToJson(p), rd);
      r.Ok? && IsSuffix(Join(", ", Take(Keys(p.vocabulary.top50Words), 20)), r.value)
  {
    var j := ProfileToJson(p);
    ProfileRenderable(p, rd);
    RenderableIff(t, j, rd);
    PreambleRendersProfile(t, j, rd);
    var vocabulary := Lookup(j.fields, "vocabulary").value;
    var terms := Join(", ", Take(KeyList(Lookup(vocabulary.fields, "top_50_words").value.fields), 20));
    SystemTextShows(t, IntToString(ToInt(AvgDocLength(j), rd).value),
      Str(Lookup(Lookup(j.fields, "sentence_structure").value.fields, "avg_sentence_length").value, rd),
      Str(Lookup(vocabulary.fields, "lexical_diversity").value, rd),
      Str(Lookup(j.fields, "document_count").value, rd), terms);
    assert terms == Join(", ", Take(Keys(p.vocabulary.top50Words), 20)) by {
      ProfileJsonFields(p);
      ProfileJsonNested(p);
      CountsKeys(p.vocabulary.top50Words);
    }
  }

  /** The profile of any corpus renders, with the corpus' most common words as its terms. */
  lemma AnalysisProfileRenders(t: TemplateTexts, texts: seq<string>, rules: CharRules, rd: Rendering)
    ensures var r := Preamble(t, ProfileToJson(ProfileOf(texts, rules)), rd);
      r.Ok? && IsSuffix(Join(", ", Take(Keys(MostCommon(AllWords(texts, rules), 50)), 20)), r.value)
  {
    var p := ProfileOf(texts, rules);
    assert p.vocabulary.top50Words == MostCommon(AllWords(texts, rules), 50);
    MostCommonUnique(AllWords(texts, rules), 50);
    ProfileWritesTerms(t, p, rd);
  }
}
