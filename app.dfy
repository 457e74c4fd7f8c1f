/**
 * The Streamlit application's own logic: loading the FAQ records of the
 * JSON-lines data files into documents, refusing to build a store from no
 * documents, and the chat session whose message list each submitted input
 * extends by one user message and one assistant reply.
 */
module App {
  import opened Wrappers
  import opened PyStr
  import opened RagPipeline

  // ===========================================================================
  // load_jsonl_data
  // ===========================================================================

  /** A decoded line: a JSON object whose fields are strings. */
  type JsonObject = map<string, string>

  /** A data file as read: one entry per line, `None` where the line is not a JSON object. */
  type JsonlLines = seq<Option<JsonObject>>

  /** The files that exist, by path. */
  type FileSystem = map<string, JsonlLines>

  /** `data.get(key, "")` */
  function Get(data: JsonObject, key: string): string {
    if key in data then data[key] else ""
  }

  /** `path.rfind('/')`: the position of the last slash, or -1. */
  function LastSlash(path: string): (r: int)
    ensures -1 <= r < |path|
    ensures r >= 0 ==> path[r] == '/'
    ensures forall i :: r < i < |path| ==> path[i] != '/'
    decreases |path|
  {
    if path == [] then -1
    else if path[|path| - 1] == '/' then |path| - 1
    else LastSlash(path[..|path| - 1])
  }

  /** `os.path.basename(path)`: what follows the last slash. */
  function Basename(path: string): string {
    path[LastSlash(path) + 1..]
  }

  /** `os.path.join(a, b)` as `posixpath` computes it. */
  function PathJoin(a: string, b: string): string {
    if b != [] && b[0] == '/' then b
    else if a == [] || a[|a| - 1] == '/' then a + b
    else a + "/" + b
  }

  /** The text of a document: `f"Soru: {question}\nCevap: {answer}"`. */
  function PageContent(question: string, answer: string): string {
    "Soru: " + question + "\nCevap: " + answer
  }

  /** A line is kept when it decodes to an object with a non-empty question and answer. */
  predicate Keeps(line: Option<JsonObject>) {
    line.Some? && Get(line.value, "question") != "" && Get(line.value, "answer") != ""
  }

  /** A line lacking the question or the answer key is skipped: `get` falls back to "". */
  lemma MissingFieldSkipped(data: JsonObject)
    requires "question" !in data || "answer" !in data
    ensures !Keeps(Some(data))
  {
  }

  /** The document a kept line becomes, tagged with the file's base name. */
  function LineDocument(data: JsonObject, source: string): Document {
    Document(PageContent(Get(data, "question"), Get(data, "answer")), map["source" := source])
  }

  /** The documents of the kept lines, in line order. */
  function LoadedDocuments(lines: JsonlLines, source: string): seq<Document>
    decreases |lines|
  {
    if lines == [] then []
    else
      var last := lines[|lines| - 1];
      LoadedDocuments(lines[..|lines| - 1], source)
        + (if Keeps(last) then [LineDocument(last.value, source)] else [])
  }

  /** What `load_jsonl_data(path)` returns: nothing for a missing file. */
  function LoadFile(fs: FileSystem, path: string): seq<Document> {
    if path in fs then LoadedDocuments(fs[path], Basename(path)) else []
  }

  /** `load_jsonl_data(file_path)`: one pass over the lines, skipping the bad ones. */
  method LoadJsonlData(fs: FileSystem, path: string) returns (documents: seq<Document>)
    ensures documents == LoadFile(fs, path)
  {
    documents := [];
    if path !in fs {
      return;
    }
    var lines := fs[path];
    var i := 0;
    while i < |lines|
      invariant 0 <= i <= |lines|
      invariant documents == LoadedDocuments(lines[..i], Basename(path))
    {
      assert lines[..i + 1][..i] == lines[..i];
      match lines[i] {
        case None =>
        case Some(data) =>
          var question := Get(data, "question");
          var answer := Get(data, "answer");
          if question != "" && answer != "" {
            var pageContent := "Soru: " + question + "\nCevap: " + answer;
            documents := documents + [Document(pageContent, map["source" := Basename(path)])];
          }
      }
      i := i + 1;
    }
    assert lines[..i] == lines;
  }

  /** The positions of the kept lines, in line order. */
  function KeptIndices(lines: JsonlLines): seq<nat>
    decreases |lines|
  {
    if lines == [] then []
    else KeptIndices(lines[..|lines| - 1]) + (if Keeps(lines[|lines| - 1]) then [|lines| - 1] else [])
  }

  /** Every listed position is a line of the file, and a kept one. */
  lemma {:induction false} KeptIndicesKept(lines: JsonlLines)
    ensures forall k :: 0 <= k < |KeptIndices(lines)| ==>
              KeptIndices(lines)[k] < |lines| && Keeps(lines[KeptIndices(lines)[k]])
    decreases |lines|
  {
    if lines != [] {
      var init := lines[..|lines| - 1];
      KeptIndicesKept(init);
      assert forall i :: 0 <= i < |init| ==> init[i] == lines[i];
    }
  }

  /** The positions are listed in strictly increasing order. */
  lemma {:induction false} KeptIndicesIncreasing(lines: JsonlLines)
    ensures forall k, l :: 0 <= k < l < |KeptIndices(lines)| ==> KeptIndices(lines)[k] < KeptIndices(lines)[l]
    decreases |lines|
  {
    if lines != [] {
      var init := lines[..|lines| - 1];
      KeptIndicesIncreasing(init);
      KeptIndicesKept(init);
    }
  }

  /** Every kept line is listed. */
  lemma {:induction false} KeptIndicesComplete(lines: JsonlLines)
    ensures forall i :: 0 <= i < |lines| && Keeps(lines[i]) ==> i in KeptIndices(lines)
    decreases |lines|
  {
    if lines != [] {
      var init := lines[..|lines| - 1];
      KeptIndicesComplete(init);
      assert forall i :: 0 <= i < |init| ==> init[i] == lines[i];
    }
  }

  /**
   * The loaded documents are exactly the kept lines, in line order, each
   * with the formatted question and answer and the file's base name as source.
   */
  lemma {:induction false} LoadedFollowsKeptLines(lines: JsonlLines, source: string)
    ensures forall k :: 0 <= k < |KeptIndices(lines)| ==>
              KeptIndices(lines)[k] < |lines| && Keeps(lines[KeptIndices(lines)[k]])
    ensures |LoadedDocuments(lines, source)| == |KeptIndices(lines)|
    ensures forall k :: 0 <= k < |KeptIndices(lines)| ==>
              LoadedDocuments(lines, source)[k] == LineDocument(lines[KeptIndices(lines)[k]].GetOr(map[]), source)
    decreases |lines|
  {
    KeptIndicesKept(lines);
    if lines != [] {
      var init := lines[..|lines| - 1];
      var last := lines[|lines| - 1];
      LoadedFollowsKeptLines(init, source);
      var docs, idx := LoadedDocuments(init, source), KeptIndices(init);
      if Keeps(last) {
        assert LoadedDocuments(lines, source) == docs + [LineDocument(last.value, source)];
        assert KeptIndices(lines) == idx + [|lines| - 1];
      } else {
        assert LoadedDocuments(lines, source) == docs;
        assert KeptIndices(lines) == idx;
      }
      forall k | 0 <= k < |idx|
        ensures LoadedDocuments(lines, source)[k] == LineDocument(lines[KeptIndices(lines)[k]].GetOr(map[]), source)
      {
        assert lines[idx[k]] == init[idx[k]];
      }
    }
  }

  /** No more documents than lines. */
  lemma {:induction false} LoadedAtMostLines(lines: JsonlLines, source: string)
    ensures |LoadedDocuments(lines, source)| <= |lines|
    decreases |lines|
  {
    if lines != [] {
      LoadedAtMostLines(lines[..|lines| - 1], source);
    }
  }

  /** A sequence of lines yields no documents exactly when none of them is kept. */
  lemma {:induction false} LoadedEmptyIff(lines: JsonlLines, source: string)
    ensures LoadedDocuments(lines, source) == [] <==> forall i :: 0 <= i < |lines| ==> !Keeps(lines[i])
    decreases |lines|
  {
    if lines != [] {
      var init := lines[..|lines| - 1];
      LoadedEmptyIff(init, source);
      assert forall i :: 0 <= i < |init| ==> init[i] == lines[i];
    }
  }

  /** A slash at `j` (or none, for -1) with none after it is the last slash. */
  lemma LastSlashAt(path: string, j: int)
    requires -1 <= j < |path| && (j >= 0 ==> path[j] == '/')
    requires forall i :: j < i < |path| ==> path[i] != '/'
    ensures LastSlash(path) == j
  {
    var r := LastSlash(path);
    if j >= 0 {
      assert !(j > r);
    }
    if r >= 0 {
      assert !(r > j);
    }
  }

  /** The base name of `os.path.join(dir, name)` is `name` when `name` holds no slash. */
  lemma BasenameOfJoin(dir: string, name: string)
    requires name != [] && forall i :: 0 <= i < |name| ==> name[i] != '/'
    ensures Basename(PathJoin(dir, name)) == name
  {
    var p := PathJoin(dir, name);
    var j := |p| - |name| - 1;
    if dir == [] {
      assert p == name;
    } else if dir[|dir| - 1] == '/' {
      assert p == dir + name;
      assert p[j] == dir[|dir| - 1];
    } else {
      assert p == dir + "/" + name;
    }
    assert forall i :: j < i < |p| ==> p[i] == name[i - j - 1];
    LastSlashAt(p, j);
    assert p[j + 1..] == name;
  }

  // ===========================================================================
  // create_database_runtime (the loading part and the no-data check)
  // ===========================================================================

  const DataFileNames: seq<string> := ["enriched_dataset.jsonl", "generated_data_google.jsonl"]

  /** `DATA_FILES`: the data files under the project root's `data` directory. */
  function DataFiles(projectRoot: string): seq<string> {
    seq(|DataFileNames|, k requires 0 <= k < |DataFileNames| =>
      PathJoin(PathJoin(projectRoot, "data"), DataFileNames[k]))
  }

  /** The message raised when no data file yields a document. */
  const NoDataError: string := "Veri dosyaları yüklenemedi!"

  /** The documents of all files, file after file, each file's in line order. */
  function AllDocuments(fs: FileSystem, files: seq<string>): seq<Document>
    decreases |files|
  {
    if files == [] then []
    else AllDocuments(fs, files[..|files| - 1]) + LoadFile(fs, files[|files| - 1])
  }

  /**
   * `create_database_runtime()` up to the embedding: concatenate the documents
   * of the data files in order, and fail when there are none.
   */
  method CreateDatabaseRuntime(fs: FileSystem, dataFiles: seq<string>) returns (r: Result<seq<Document>, string>)
    ensures AllDocuments(fs, dataFiles) == [] ==> r == Failure(NoDataError)
    ensures AllDocuments(fs, dataFiles) != [] ==> r == Success(AllDocuments(fs, dataFiles))
  {
    var allDocuments := [];
    var i := 0;
    while i < |dataFiles|
      invariant 0 <= i <= |dataFiles|
      invariant allDocuments == AllDocuments(fs, dataFiles[..i])
    {
      assert dataFiles[..i + 1][..i] == dataFiles[..i];
      var docs := LoadJsonlData(fs, dataFiles[i]);
      allDocuments := allDocuments + docs;
      i := i + 1;
    }
    assert dataFiles[..i] == dataFiles;
    if allDocuments == [] {
      return Failure(NoDataError);
    }
    return Success(allDocuments);
  }

  /** The file at `path` is missing or keeps none of its lines. */
  predicate YieldsNothing(fs: FileSystem, path: string) {
    path in fs ==> forall i :: 0 <= i < |fs[path]| ==> !Keeps(fs[path][i])
  }

  /** Building fails exactly when every data file is missing or keeps none of its lines. */
  lemma {:induction false} NoDocumentsIff(fs: FileSystem, files: seq<string>)
    ensures AllDocuments(fs, files) == [] <==> forall k :: 0 <= k < |files| ==> YieldsNothing(fs, files[k])
    decreases |files|
  {
    if files != [] {
      var init := files[..|files| - 1];
      var last := files[|files| - 1];
      NoDocumentsIff(fs, init);
      assert AllDocuments(fs, files) == AllDocuments(fs, init) + LoadFile(fs, last);
      if last in fs {
        LoadedEmptyIff(fs[last], Basename(last));
      }
      assert LoadFile(fs, last) == [] <==> YieldsNothing(fs, last);
      assert forall k :: 0 <= k < |init| ==> init[k] == files[k];
      assert (forall k :: 0 <= k < |files| ==> YieldsNothing(fs, files[k]))
        <==> (forall k :: 0 <= k < |init| ==> YieldsNothing(fs, init[k])) && YieldsNothing(fs, last);
    }
  }

  /** Every document built from the two data files names one of them as its source. */
  lemma DataFileSources(projectRoot: string, k: nat)
    requires k < |DataFileNames|
    ensures Basename(DataFiles(projectRoot)[k]) == DataFileNames[k]
  {
    var name := DataFileNames[k];
    assert name[0] != '/';
    assert forall i :: 0 <= i < |name| ==> name[i] != '/';
    BasenameOfJoin(PathJoin(projectRoot, "data"), name);
  }

  // ===========================================================================
  // the chat session of main()
  // ===========================================================================

  datatype Role = User | Assistant

  /** An entry of `st.session_state.messages`. */
  datatype Message = Message(role: Role, content: string)

  const WelcomeText: string := "Merhaba! Ben MentorMate. " + "Bootcamp hakkında sorularınızı yanıtlamak için buradayım. 🚀"
  const GreetingReply: string := "Merhaba! Ben MentorMate. Size nasıl yardımcı olabilirim? 😊"
  const Greetings: seq<string> := ["merhaba", "selam", "hey", "hi", "günaydın"]
  /** What `result.get("answer", ...)` falls back to. */
  const DefaultAnswer: string := "Bir hata oluştu."
  /** The head of the message shown when the pipeline raises. */
  const ErrorPrefix: string := "❌ Bir hata oluştu: "

  /** The greeting test: the lower-cased, stripped input is one of the greetings, exactly. */
  predicate IsGreeting(userInput: string) {
    Strip(Lower(userInput)) in Greetings
  }

  /**
   * "günaydın" is recognised only when the input itself holds the dotless
   * `ı`: `lower()` maps `I` to the dotted `i`, so the greeting typed in
   * capitals, "GÜNAYDIN", is not recognised.
   */
  lemma GunaydinNeedsDotlessI(userInput: string)
    requires Strip(Lower(userInput)) == "günaydın"
    ensures 'ı' in userInput
  {
    assert "günaydın"[6] == 'ı';
    StripInside(Lower(userInput), 'ı');
    LowerMakesNoDotlessI(userInput);
  }

  /** The welcome message a fresh or cleared chat shows. */
  function Welcome(): Message {
    Message(Assistant, WelcomeText)
  }

  /**
   * The message list of a session: the welcome message, then one user
   * message and one assistant reply per submitted input.
   */
  predicate WellFormed(messages: seq<Message>) {
    |messages| % 2 == 1 && messages[0] == Welcome()
    && forall k :: 1 <= k < |messages| ==> messages[k].role == (if k % 2 == 1 then User else Assistant)
  }

  /** How many messages have the given role (the sidebar's question and answer counts). */
  function CountRole(messages: seq<Message>, role: Role): nat
    decreases |messages|
  {
    if messages == [] then 0
    else CountRole(messages[..|messages| - 1], role) + (if messages[|messages| - 1].role == role then 1 else 0)
  }

  /** The sidebar always shows one more answer than questions. */
  lemma {:induction false} AnswersOutnumberQuestions(messages: seq<Message>)
    requires WellFormed(messages)
    ensures CountRole(messages, Assistant) == CountRole(messages, User) + 1
    decreases |messages|
  {
    if |messages| > 1 {
      var shorter := messages[..|messages| - 2];
      assert shorter[..|shorter|] == messages[..|messages| - 2];
      assert messages[..|messages| - 1][..|messages| - 2] == shorter;
      assert forall k :: 0 <= k < |shorter| ==> shorter[k] == messages[k];
      AnswersOutnumberQuestions(shorter);
    }
  }

  /** A turn of one user message and one assistant reply keeps the message list well formed. */
  lemma TurnKeepsWellFormed(messages: seq<Message>, userInput: string, reply: string)
    requires WellFormed(messages)
    ensures WellFormed(messages + [Message(User, userInput), Message(Assistant, reply)])
  {
  }

  type Exchange = (string, string)

  /** The dictionary `pipeline.query` returns; either key may be missing. */
  datatype QueryResult = QueryResult(answer: Option<string>, sourceDocuments: Option<seq<Document>>)

  /** How a call of `pipeline.query` ends: a result and the pipeline's new memory, or an exception. */
  datatype QueryOutcome = Answered(result: QueryResult, memory: seq<Exchange>) | Raised(message: string)

  /** The head of the message `query` re-raises a failure of the chain with. */
  const QueryErrorPrefix: string := "Query işleme hatası: "

  /** What `query` passes on from the chain: its result, or its failure re-raised with a prefix. */
  function Rethrow(outcome: QueryOutcome): QueryOutcome {
    match outcome
    case Answered(_, _) => outcome
    case Raised(message) => Raised(QueryErrorPrefix + message)
  }

  /**
   * The message the chat shows for a failed query carries both prefixes:
   * the chat's own and the one `query` re-raises with.
   */
  lemma FailureReplyText(message: string)
    ensures AnswerReply(Rethrow(Raised(message))) == "❌ Bir hata oluştu: Query işleme hatası: " + message
  {
    assert ErrorPrefix + QueryErrorPrefix == "❌ Bir hata oluştu: Query işleme hatası: ";
  }

  /**
   * The retrieval pipeline as the chat sees it: `query` is a given function of
   * the conversation memory and the question, and `clear_memory` empties it.
   */
  class Pipeline {
    const answerer: (seq<Exchange>, string) -> QueryOutcome
    var memory: seq<Exchange>

    constructor (answerer: (seq<Exchange>, string) -> QueryOutcome)
      ensures this.answerer == answerer && memory == []
    {
      this.answerer := answerer;
      memory := [];
    }

    /**
     * `pipeline.query(question)`: the chain's result, or its failure re-raised
     * with a prefix; the memory changes only when an answer comes back.
     */
    method Query(question: string) returns (outcome: QueryOutcome)
      modifies this
      ensures outcome == Rethrow(answerer(old(memory), question))
      ensures memory == if outcome.Answered? then outcome.memory else old(memory)
    {
      var chainOutcome := answerer(memory, question);
      match chainOutcome
      case Answered(_, newMemory) =>
        memory := newMemory;
        outcome := chainOutcome;
      case Raised(message) =>
        outcome := Raised(QueryErrorPrefix + message);
    }

    /** `pipeline.clear_memory()` */
    method ClearMemory()
      modifies this
      ensures memory == []
    {
      memory := [];
    }
  }

  /**
   * The assistant message for a non-greeting input once the pipeline has
   * run: the validated, stripped answer, or the error message.
   */
  function AnswerReply(outcome: QueryOutcome): (r: string)
    ensures outcome.Raised? ==> r == ErrorPrefix + outcome.message
    ensures outcome.Answered? ==>
              r == Strip(outcome.result.answer.GetOr(DefaultAnswer)) || r == Warning
    ensures outcome.Answered? && outcome.result.sourceDocuments.GetOr([]) == [] ==> r == Warning
  {
    match outcome
    case Raised(message) => ErrorPrefix + message
    case Answered(result, _) =>
      ValidateAnswer(Strip(result.answer.GetOr(DefaultAnswer)), result.sourceDocuments.GetOr([]))
  }

  /** The chat of `main()`: the session's message list and the pipeline it talks to. */
  class ChatSession {
    var messages: seq<Message>
    const pipeline: Pipeline

    /** A new session starts with the welcome message. */
    constructor (pipeline: Pipeline)
      ensures this.pipeline == pipeline
      ensures messages == [Welcome()] && WellFormed(messages)
    {
      this.pipeline := pipeline;
      messages := [Welcome()];
    }

    /**
     * One run of the chat input handler. An empty input does nothing. Any
     * other input appends the user message and then exactly one assistant
     * message: the greeting reply for an exact greeting (the pipeline is not
     * consulted), else the reply to the enriched query, or the error message.
     */
    method Submit(userInput: string)
      requires WellFormed(messages)
      modifies this, pipeline
      ensures WellFormed(messages)
      ensures userInput == "" ==> messages == old(messages) && pipeline.memory == old(pipeline.memory)
      ensures userInput != "" && IsGreeting(userInput) ==>
                messages == old(messages) + [Message(User, userInput), Message(Assistant, GreetingReply)]
                && pipeline.memory == old(pipeline.memory)
      ensures userInput != "" && !IsGreeting(userInput) ==>
                var outcome := Rethrow(pipeline.answerer(old(pipeline.memory), Preprocess(userInput)));
                && messages == old(messages) + [Message(User, userInput), Message(Assistant, AnswerReply(outcome))]
                && pipeline.memory == if outcome.Answered? then outcome.memory else old(pipeline.memory)
    {
      if userInput == "" {
        return;
      }
      var reply: string;
      if IsGreeting(userInput) {
        reply := GreetingReply;
      } else {
        var enrichedQuery := PreprocessQuery(userInput);
        var outcome := pipeline.Query(enrichedQuery);
        reply := AnswerReply(outcome);
      }
      TurnKeepsWellFormed(messages, userInput, reply);
      messages := messages + [Message(User, userInput), Message(Assistant, reply)];
    }

    /** The "clear chat" button: back to the welcome message alone, and the pipeline forgets. */
    method ClearChat()
      modifies this, pipeline
      ensures messages == [Welcome()] && WellFormed(messages)
      ensures pipeline.memory == []
    {
      messages := [Welcome()];
      pipeline.ClearMemory();
    }
  }
}
