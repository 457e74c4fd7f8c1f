/**
 * The two helper functions of the retrieval-augmented pipeline module:
 * the hallucination filter `validate_answer` and the query enrichment
 * `preprocess_query` with its character table and ordered keyword map.
 */
module RagPipeline {
  import opened Wrappers
  import opened PyStr

  /** A retrieved FAQ entry: its text and its metadata (`source` names the data file). */
  datatype Document = Document(pageContent: string, metadata: map<string, string>)

  // ===========================================================================
  // validate_answer
  // ===========================================================================

  // The refusal text is spelled in three pieces so that the verifier can see
  // the "veri setimde" inside it.
  const WarningHead: string := "⚠️ Bu konuda "
  const WarningTail: string := " güvenilir bilgi bulunmuyor."
  /** The fixed refusal that replaces an answer the sources do not support. */
  const Warning: string := WarningHead + "veri setimde" + WarningTail

  /** Phrases by which the language model admits it has no information. */
  const NoInfoPhrases: seq<string> := ["veri setimde", "bilgi bulunmuyor", "bilgim yok"]

  predicate AdmitsNoInfo(answerLower: string) {
    exists k | 0 <= k < |NoInfoPhrases| :: Contains(answerLower, NoInfoPhrases[k])
  }

  /** The distinct tokens longer than three characters: `set(w for w in text.split() if len(w) > 3)`. */
  function LongWords(text: string): set<string> {
    set w | w in Split(text) && |w| > 3
  }

  /** The lower-cased contents of the documents, in order. */
  function LowerContents(docs: seq<Document>): seq<string> {
    seq(|docs|, i requires 0 <= i < |docs| => Lower(docs[i].pageContent))
  }

  /** `" ".join(doc.page_content.lower() for doc in docs)` */
  function SourceText(docs: seq<Document>): string {
    Join(" ", LowerContents(docs))
  }

  /** The words that occur as substrings of the source text. */
  function Matched(words: set<string>, text: string): set<string> {
    set w | w in words && Contains(text, w)
  }

  /**
   * The numerator never exceeds the denominator; it equals it exactly when
   * every word occurs in the text, and is zero exactly when none does.
   */
  lemma MatchedBounds(words: set<string>, text: string)
    ensures |Matched(words, text)| <= |words|
    ensures Matched(words, text) == words <==> forall w :: w in words ==> Contains(text, w)
    ensures Matched(words, text) == {} <==> forall w :: w in words ==> !Contains(text, w)
  {
    var m := Matched(words, text);
    assert words == m + (words - m) && m * (words - m) == {};
    if m != {} {
      var w :| w in m;
      assert Contains(text, w);
    }
  }

  /** `len(matched) / len(words) < 0.20`, stated exactly in integers. */
  predicate LowOverlap(words: set<string>, text: string) {
    5 * |Matched(words, text)| < |words|
  }

  lemma FirstPhraseIsLower()
    ensures Lower(NoInfoPhrases[0]) == NoInfoPhrases[0]
  {
    LowerOfLower("veri setimde");
  }

  /** An answer holding "veri setimde" between any two texts admits having no information. */
  lemma NoInfoPhraseInside(head: string, tail: string)
    ensures AdmitsNoInfo(Lower(head + "veri setimde" + tail))
  {
    var phrase := NoInfoPhrases[0];
    assert Lower(head + phrase + tail) == Lower(head) + phrase + Lower(tail) by {
      LowerAppend(head + phrase, tail);
      LowerAppend(head, phrase);
      FirstPhraseIsLower();
    }
    assert Contains(Lower(head) + phrase + Lower(tail), phrase) by {
      ContainsAt(phrase, phrase, 0);
      ContainsInMiddle(Lower(head), phrase, Lower(tail), phrase);
    }
  }

  lemma WarningAdmitsNoInfo()
    ensures AdmitsNoInfo(Lower(Warning))
  {
    NoInfoPhraseInside(WarningHead, WarningTail);
  }

  /**
   * `validate_answer(answer, source_docs)`: keeps the answer or replaces it by
   * `Warning`. No sources means the warning; an admission of no information
   * is kept; otherwise the answer is refused exactly when fewer than a fifth
   * of its distinct long words occur in the joined, lower-cased sources.
   */
  function ValidateAnswer(answer: string, docs: seq<Document>): (r: string)
    ensures r == answer || r == Warning
    ensures docs == [] ==> r == Warning
    ensures docs != [] && AdmitsNoInfo(Lower(answer)) ==> r == answer
    ensures docs != [] && !AdmitsNoInfo(Lower(answer)) ==>
              (r == Warning <==> LowOverlap(LongWords(Lower(answer)), SourceText(docs)))
  {
    WarningAdmitsNoInfo();
    if docs == [] then Warning
    else
      var answerLower := Lower(answer);
      if AdmitsNoInfo(answerLower) then answer
      else
        var words := LongWords(answerLower);
        if words == {} then answer
        else if LowOverlap(words, SourceText(docs)) then Warning
        else answer
  }

  /** Validating twice is validating once: the warning itself admits having no information. */
  lemma ValidateIdempotent(answer: string, docs: seq<Document>)
    ensures ValidateAnswer(ValidateAnswer(answer, docs), docs) == ValidateAnswer(answer, docs)
  {
    WarningAdmitsNoInfo();
  }

  /** An answer whose every long word occurs in the sources is kept. */
  lemma FullyGroundedKept(answer: string, docs: seq<Document>)
    requires docs != []
    requires forall w :: w in LongWords(Lower(answer)) ==> Contains(SourceText(docs), w)
    ensures ValidateAnswer(answer, docs) == answer
  {
    var words := LongWords(Lower(answer));
    assert Matched(words, SourceText(docs)) == words;
  }

  /** An answer with long words none of which occurs in the sources is refused. */
  lemma UngroundedRefused(answer: string, docs: seq<Document>)
    requires docs != [] && !AdmitsNoInfo(Lower(answer))
    requires LongWords(Lower(answer)) != {}
    requires forall w :: w in LongWords(Lower(answer)) ==> !Contains(SourceText(docs), w)
    ensures ValidateAnswer(answer, docs) == Warning
  {
    var words := LongWords(Lower(answer));
    assert Matched(words, SourceText(docs)) == {};
  }

  /** An answer with no token longer than three characters is kept whenever there are sources. */
  lemma ShortWordsKept(answer: string, docs: seq<Document>)
    requires docs != []
    requires forall w :: w in Split(Lower(answer)) ==> |w| <= 3
    ensures ValidateAnswer(answer, docs) == answer
  {
    assert LongWords(Lower(answer)) == {};
  }

  /** Words are counted once: repeating the answer leaves its long-word set unchanged. */
  lemma RepeatedWordsCountOnce(answer: string)
    ensures LongWords(Lower(answer + " " + answer)) == LongWords(Lower(answer))
  {
    var a := Lower(answer);
    LowerAppend(answer + " ", answer);
    LowerAppend(answer, " ");
    assert Lower(" ") == [' '];
    SplitAcrossSpace(a, ' ', a);
    assert Lower(answer + " " + answer) == a + [' '] + a;
  }

  // ===========================================================================
  // preprocess_query
  // ===========================================================================

  /** The character table, in its order: upper-case letter and its replacement. */
  const TurkishChars: seq<(char, char)> :=
    [('İ', 'i'), ('I', 'ı'), ('Ğ', 'ğ'), ('Ü', 'ü'), ('Ş', 'ş'), ('Ö', 'ö'), ('Ç', 'ç')]

  /** Each canonical keyword with its synonyms, in the order of the source's table. */
  const KeywordMap: seq<(string, seq<string>)> := [
    ("katılım", ["iştirak", "katılım oranı", "yoklama", "attendance", "devam"]),
    ("canlı yayın", ["webinar", "web semineri", "youtube", "yayın", "live", "stream"]),
    ("sertifika", ["certificate", "belge", "sertifikadaki", "diploma", "sertifikası"]),
    ("bootcamp", ["eğitim", "kurs", "program", "kampı", "camp", "training"]),
    ("süre", ["zaman", "gün", "hafta", "ne kadar", "kaç", "duration"]),
    ("mentor", ["danışman", "eğitmen", "mentör", "öğretmen"]),
    ("proje", ["ödev", "task", "görev", "assignment", "project", "tamamlama"]),
    ("github", ["git", "repo", "repository", "kod yükleme", "arayüz"]),
    ("grup", ["ekip", "takım", "team", "bireysel", "tek kişi", "iki kişi"]),
    ("iş", ["staj", "kariyer", "fırsat", "employment", "job"]),
    ("arşiv", ["kayıt", "video", "recording", "kaydediliyor"]),
    ("duyuru", ["announcement", "bildirim", "haber", "kanal", "zulip"]),
    ("takvim", ["tarih", "gün", "program", "schedule", "zamanlama"]),
    ("toplantı", ["meeting", "buluşma", "görüşme", "saat", "zaman"])
  ]

  /** The table's replacements applied one after the other, in table order. */
  function ReplaceAll(s: string, table: seq<(char, char)>): string
    decreases |table|
  {
    if table == [] then s
    else
      var last := table[|table| - 1];
      ReplaceChar(ReplaceAll(s, table[..|table| - 1]), last.0, last.1)
  }

  /** The lower-cased query with the character table applied. */
  function Normalize(query: string): string {
    ReplaceAll(Lower(query), TurkishChars)
  }

  /** The short-query match test: `keyword in word or word in keyword`. */
  predicate Matches(word: string, keyword: string) {
    Contains(word, keyword) || Contains(keyword, word)
  }

  /** The first entry at or after `from`, in table order, whose keyword matches `word`. */
  function FirstMatch(word: string, table: seq<(string, seq<string>)>, from: nat): (r: Option<nat>)
    ensures r.Some? ==> from <= r.value < |table|
    decreases |table| - from
  {
    if from >= |table| then None
    else if Matches(word, table[from].0) then Some(from)
    else FirstMatch(word, table, from + 1)
  }

  /**
   * The short pass picks the FIRST matching keyword in table order (the inner
   * loop's `break`), and finds none only when no keyword matches.
   */
  lemma {:induction false} FirstMatchIsFirst(word: string, table: seq<(string, seq<string>)>, from: nat)
    ensures var r := FirstMatch(word, table, from);
      && (r.Some? ==> from <= r.value < |table| && Matches(word, table[r.value].0))
      && (r.Some? ==> forall j :: from <= j < r.value ==> !Matches(word, table[j].0))
      && (r.None? ==> forall j :: from <= j < |table| ==> !Matches(word, table[j].0))
    decreases |table| - from
  {
    if from < |table| && !Matches(word, table[from].0) {
      FirstMatchIsFirst(word, table, from + 1);
    }
  }

  /** What the short pass appends for a matched entry: `" " + keyword + " " + " ".join(synonyms)`. */
  function Cluster(entry: (string, seq<string>)): string {
    " " + entry.0 + " " + Join(" ", entry.1)
  }

  /** What one token of a short query appends: its first matching cluster, or nothing. */
  function ShortAppend(word: string, table: seq<(string, seq<string>)>): string {
    match FirstMatch(word, table, 0)
    case Some(k) => Cluster(table[k])
    case None => ""
  }

  /** The short-pass appends of the given tokens, in token order. */
  function ShortExpansion(words: seq<string>, table: seq<(string, seq<string>)>): string
    decreases |words|
  {
    if words == [] then ""
    else ShortExpansion(words[..|words| - 1], table) + ShortAppend(words[|words| - 1], table)
  }

  /** The normalized query after the short-query pass (queries of at most two tokens). */
  function ShortPass(normalized: string, table: seq<(string, seq<string>)>): string {
    var words := Split(normalized);
    if |words| <= 2 then normalized + ShortExpansion(words, table) else normalized
  }

  /** The synonym lists of the entries whose keyword occurs in `text`, in table order. */
  function SynonymExpansion(text: string, table: seq<(string, seq<string>)>): string
    decreases |table|
  {
    if table == [] then ""
    else
      var last := table[|table| - 1];
      SynonymExpansion(text, table[..|table| - 1])
        + (if Contains(text, last.0) then " " + Join(" ", last.1) else "")
  }

  /**
   * The value `preprocess_query(query)` returns: the normalized query, its
   * short-query clusters, then the synonyms of every keyword found in that.
   */
  function Preprocess(query: string): string {
    var shortened := ShortPass(Normalize(query), KeywordMap);
    shortened + SynonymExpansion(shortened, KeywordMap)
  }

  /** The character-table loop: each `query_normalized.replace(upper, lower)` in table order. */
  method ApplyCharTable(lowered: string) returns (normalized: string)
    ensures normalized == ReplaceAll(lowered, TurkishChars)
  {
    normalized := lowered;
    var t := 0;
    while t < |TurkishChars|
      invariant 0 <= t <= |TurkishChars|
      invariant normalized == ReplaceAll(lowered, TurkishChars[..t])
    {
      assert TurkishChars[..t + 1][..t] == TurkishChars[..t];
      normalized := ReplaceChar(normalized, TurkishChars[t].0, TurkishChars[t].1);
      t := t + 1;
    }
    assert TurkishChars[..t] == TurkishChars;
  }

  /**
   * The inner loop of the short-query pass: scan the table in order and, at
   * the first keyword that matches `word`, append its cluster and stop.
   */
  method AppendFirstCluster(text: string, word: string, table: seq<(string, seq<string>)>) returns (extended: string)
    ensures extended == text + ShortAppend(word, table)
  {
    extended := text;
    var k := 0;
    while k < |table|
      invariant 0 <= k <= |table|
      invariant FirstMatch(word, table, k) == FirstMatch(word, table, 0)
      invariant extended == text
    {
      var keyword := table[k].0;
      if Contains(word, keyword) || Contains(keyword, word) {
        ShortAppendFound(word, table, k);
        extended := extended + (" " + keyword + " " + Join(" ", table[k].1));
        break;
      }
      k := k + 1;
    }
    if k == |table| {
      assert ShortAppend(word, table) == "";
    }
  }

  /** The loop over the tokens of a short query: each appends its first-match cluster. */
  method AppendTokenClusters(text: string, words: seq<string>, table: seq<(string, seq<string>)>) returns (extended: string)
    ensures extended == text + ShortExpansion(words, table)
  {
    extended := text;
    var i := 0;
    while i < |words|
      invariant 0 <= i <= |words|
      invariant extended == text + ShortExpansion(words[..i], table)
    {
      var next := AppendFirstCluster(extended, words[i], table);
      ShortExpansionStep(words, i, table);
      assert next == text + ShortExpansion(words[..i + 1], table);
      extended := next;
      i := i + 1;
    }
    assert words[..i] == words;
  }

  /**
   * The short-query pass: a query of at most two tokens gets, token by
   * token, the cluster of the first keyword each token matches.
   */
  method AppendShortClusters(normalized: string, table: seq<(string, seq<string>)>) returns (extended: string)
    ensures extended == ShortPass(normalized, table)
  {
    var words := Split(normalized);
    if |words| <= 2 {
      extended := AppendTokenClusters(normalized, words, table);
    } else {
      extended := normalized;
    }
  }

  /**
   * The enrichment loop: for every keyword contained in `normalized` (not in
   * the growing result), append its synonyms, in table order.
   */
  method AppendSynonyms(normalized: string, table: seq<(string, seq<string>)>) returns (enriched: string)
    ensures enriched == normalized + SynonymExpansion(normalized, table)
  {
    enriched := normalized;
    var k := 0;
    while k < |table|
      invariant 0 <= k <= |table|
      invariant enriched == normalized + SynonymExpansion(normalized, table[..k])
    {
      SynonymExpansionStep(normalized, table, k);
      if Contains(normalized, table[k].0) {
        enriched := enriched + (" " + Join(" ", table[k].1));
      }
      k := k + 1;
    }
    assert table[..k] == table;
  }

  /** `preprocess_query(query)` */
  method PreprocessQuery(query: string) returns (enriched: string)
    ensures enriched == Preprocess(query)
  {
    var normalized := ApplyCharTable(Lower(query));
    normalized := AppendShortClusters(normalized, KeywordMap);
    enriched := AppendSynonyms(normalized, KeywordMap);
  }

  lemma ShortAppendFound(word: string, table: seq<(string, seq<string>)>, k: nat)
    requires k < |table| && Matches(word, table[k].0)
    requires FirstMatch(word, table, k) == FirstMatch(word, table, 0)
    ensures ShortAppend(word, table) == " " + table[k].0 + " " + Join(" ", table[k].1)
  {
  }

  lemma SynonymExpansionStep(text: string, table: seq<(string, seq<string>)>, k: nat)
    requires k < |table|
    ensures SynonymExpansion(text, table[..k + 1]) == SynonymExpansion(text, table[..k])
              + (if Contains(text, table[k].0) then " " + Join(" ", table[k].1) else "")
  {
    assert table[..k + 1][..k] == table[..k];
  }

  lemma ShortExpansionStep(words: seq<string>, i: nat, table: seq<(string, seq<string>)>)
    requires i < |words|
    ensures ShortExpansion(words[..i + 1], table) == ShortExpansion(words[..i], table) + ShortAppend(words[i], table)
  {
    assert words[..i + 1][..i] == words[..i];
  }

  // ---------------------------------------------------------------------------
  // properties of preprocess_query
  // ---------------------------------------------------------------------------

  lemma {:induction false} ReplaceAllAbsent(s: string, table: seq<(char, char)>)
    requires forall i, k :: 0 <= i < |s| && 0 <= k < |table| ==> s[i] != table[k].0
    ensures ReplaceAll(s, table) == s
    decreases |table|
  {
    if table != [] {
      ReplaceAllAbsent(s, table[..|table| - 1]);
      ReplaceAbsent(s, table[|table| - 1].0, table[|table| - 1].1);
    }
  }

  /**
   * The character table never fires: every letter it replaces is one that
   * `lower()` has already lower-cased, so the normalized query is exactly
   * the lower-cased query.
   */
  lemma NormalizeIsLower(query: string)
    ensures Normalize(query) == Lower(query)
  {
    LowerHasNoUpper(query);
    assert forall k :: 0 <= k < |TurkishChars| ==> IsUpper(TurkishChars[k].0);
    ReplaceAllAbsent(Lower(query), TurkishChars);
  }

  /** Enrichment only appends: the lower-cased query is a prefix of the result. */
  lemma PreprocessExtendsQuery(query: string)
    ensures IsPrefix(Lower(query), Preprocess(query))
  {
    NormalizeIsLower(query);
    var n := Lower(query);
    var shortened := ShortPass(n, KeywordMap);
    assert shortened[..|n|] == n;
    assert Preprocess(query)[..|shortened|] == shortened;
  }

  /** A query of more than two tokens gets no short-query appends. */
  lemma LongQueryNoShortAppends(query: string)
    requires |Split(Lower(query))| > 2
    ensures Preprocess(query) == Lower(query) + SynonymExpansion(Lower(query), KeywordMap)
  {
    NormalizeIsLower(query);
  }

  /** No entry's keyword occurs in `text` exactly when nothing is appended in the second pass. */
  lemma {:induction false} SynonymExpansionEmptyIff(text: string, table: seq<(string, seq<string>)>)
    ensures SynonymExpansion(text, table) == "" <==>
              forall k :: 0 <= k < |table| ==> !Contains(text, table[k].0)
    decreases |table|
  {
    if table != [] {
      var init := table[..|table| - 1];
      SynonymExpansionEmptyIff(text, init);
      assert forall k :: 0 <= k < |init| ==> init[k] == table[k];
    }
  }

  /** Every entry whose keyword occurs in `text` contributes its synonym list. */
  lemma {:induction false} SynonymExpansionHasEach(text: string, table: seq<(string, seq<string>)>, k: nat)
    requires k < |table| && Contains(text, table[k].0)
    ensures Contains(SynonymExpansion(text, table), " " + Join(" ", table[k].1))
    decreases |table|
  {
    var init := table[..|table| - 1];
    var last := table[|table| - 1];
    if k == |table| - 1 {
      ContainsAt(" " + Join(" ", last.1), " " + Join(" ", last.1), 0);
      ContainsInMiddle(SynonymExpansion(text, init), " " + Join(" ", last.1), "", " " + Join(" ", last.1));
      assert SynonymExpansion(text, init) + (" " + Join(" ", last.1)) + ""
          == SynonymExpansion(text, table);
    } else {
      assert init[k] == table[k];
      SynonymExpansionHasEach(text, init, k);
      var tail := if Contains(text, last.0) then " " + Join(" ", last.1) else "";
      ContainsInMiddle("", SynonymExpansion(text, init), tail, " " + Join(" ", table[k].1));
      assert "" + SynonymExpansion(text, init) + tail == SynonymExpansion(text, table);
    }
  }

  /** Tokens without a matching keyword append nothing in the short pass. */
  lemma {:induction false} ShortExpansionEmpty(words: seq<string>, table: seq<(string, seq<string>)>)
    requires forall i :: 0 <= i < |words| ==> FirstMatch(words[i], table, 0).None?
    ensures ShortExpansion(words, table) == ""
    decreases |words|
  {
    if words != [] {
      var init := words[..|words| - 1];
      assert forall i :: 0 <= i < |init| ==> init[i] == words[i];
      ShortExpansionEmpty(init, table);
    }
  }

  /** Every keyword holds a character that is not white space. */
  lemma KeywordsNotBlank()
    ensures forall k :: 0 <= k < |KeywordMap| ==> !IsBlank(KeywordMap[k].0)
  {
    forall k | 0 <= k < |KeywordMap| ensures !IsBlank(KeywordMap[k].0) {
      assert !IsSpace(KeywordMap[k].0[0]);
    }
  }

  /** An empty or white-space-only query comes back unchanged, with nothing appended. */
  lemma BlankQueryUnchanged(query: string)
    requires IsBlank(query)
    ensures Preprocess(query) == Lower(query) == query
  {
    NormalizeIsLower(query);
    LowerOfBlank(query);
    SplitEmptyIffBlank(query);
    assert ShortPass(query, KeywordMap) == query;
    KeywordsNotBlank();
    forall k | 0 <= k < |KeywordMap| ensures !Contains(query, KeywordMap[k].0) {
      BlankContainsOnlyBlank(query, KeywordMap[k].0);
    }
    SynonymExpansionEmptyIff(query, KeywordMap);
  }

  /**
   * A query none of whose tokens matches in the short pass, and in which no
   * keyword occurs, comes back as its normalized self.
   */
  lemma NoMatchUnchanged(query: string)
    requires forall w :: w in Split(Lower(query)) ==> FirstMatch(w, KeywordMap, 0).None?
    requires forall k :: 0 <= k < |KeywordMap| ==> !Contains(Lower(query), KeywordMap[k].0)
    ensures Preprocess(query) == Lower(query)
  {
    NormalizeIsLower(query);
    var n := Lower(query);
    ShortExpansionEmpty(Split(n), KeywordMap);
    assert ShortPass(n, KeywordMap) == n;
    SynonymExpansionEmptyIff(n, KeywordMap);
  }

  /**
   * The containment test runs in both directions, so a one-letter query
   * matches the first keyword that contains the letter: "a" picks the
   * attendance cluster.
   */
  lemma SingleLetterMatchesFirstKeyword()
    ensures FirstMatch("a", KeywordMap, 0) == Some(0)
  {
    var keyword := KeywordMap[0].0;
    assert keyword[1..2] == "a";
    ContainsAt(keyword, "a", 1);
  }
}
