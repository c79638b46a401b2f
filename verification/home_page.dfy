/**
 * The decision logic of the home page (pages/index.tsx): the binary-file
 * test, the CSV ingestion loop of analyzeFile with its line filter,
 * question/answer split and progress counters, the guard chain of
 * handleSingleRecord, and the -2 sentinel of getVectorsCount with the rule
 * that turns a count into what the page shows.
 *
 * The calls the page makes to other code are abstract (`Services`):
 * generateVector and generateAnswer are functions of the text that give the
 * embedding or answer, or None when the call rejects, and the save endpoint
 * is a predicate saying whether it answered 200.
 */
module HomePage {
  import opened Wrappers
  import opened JsStrings
  import opened OpenAi

  /** A character that `/[\x00-\x1F]/` matches. */
  predicate IsControl(ch: char)
  {
    ch as int <= 0x1F
  }

  /** isBinary: true exactly when some character of `text` is a control character. */
  function IsBinary(text: string): (b: bool)
    ensures b <==> exists i :: 0 <= i < |text| && IsControl(text[i])
  {
    if text == [] then false
    else
      var rest := IsBinary(text[1..]);
      assert rest ==> exists i :: 0 < i < |text| && IsControl(text[i]) by {
        if rest {
          var k :| 0 <= k < |text[1..]| && IsControl(text[1..][k]);
          assert IsControl(text[k + 1]);
        }
      }
      IsControl(text[0]) || rest
  }

  /**
   * A line feed is itself a control character, so a text that passes the
   * binary test has no line feed and splits into one single line.
   */
  lemma NonBinaryIsOneLine(text: string)
    requires !IsBinary(text)
    ensures '\n' !in text
    ensures SplitOn(text, '\n') == [text]
  {
    SplitWithoutSeparator(text, '\n');
  }

  const MAX_LINE_LENGTH: nat := 2000

  /** A line analyzeFile turns into a record: exactly one comma, fewer than 2000 UTF-16 units. */
  predicate IsProcessed(line: string)
    ensures IsProcessed(line) <==> |SplitOn(line, ',')| == 2 && Utf16Length(line) < MAX_LINE_LENGTH
    ensures IsProcessed(line) ==> |line| < MAX_LINE_LENGTH
  {
    Count(line, ',') == 1 && Utf16Length(line) < MAX_LINE_LENGTH
  }

  /** `line.split(",")[0]`: the text before the only comma, unchanged. */
  function Question(line: string): (q: string)
    requires Count(line, ',') == 1
    ensures q <= line && |q| < |line| && line[|q|] == ',' && ',' !in q
  {
    SplitAtOnlySeparator(line, ',');
    SplitOn(line, ',')[0]
  }

  /** `line.split(",")[1]`: the text after the only comma. */
  function AnswerPart(line: string): (a: string)
    requires Count(line, ',') == 1
    ensures line == Question(line) + [','] + a && ',' !in a
  {
    SplitAtOnlySeparator(line, ',');
    SplitOn(line, ',')[1]
  }

  /**
   * The calls the page makes to code outside this model. generateVector
   * rejects when the API key is empty, so for a page whose key is "" the
   * caller should pass a `vectorOf` that is None everywhere; the properties
   * proved hold for every choice of the three functions.
   */
  datatype Services = Services(
    vectorOf: string -> Option<seq<int>>,  // generateVector(text, apiKey): the embedding, None if it rejects
    answerOf: string -> Option<string>,    // generateAnswer(text, apiKey): the answer, None if it rejects
    saveAccepted: EmbeddingData -> bool)   // whether /api/saveVector answered 200

  /**
   * The record analyzeFile builds for a processed line, or None when one of
   * the calls it awaits rejects. The question is the text before the comma;
   * the answer is the text after it with trailing white space trimmed when
   * that text is non-empty, and the generated answer otherwise.
   */
  function ProcessLine(line: string, svc: Services): (r: Option<EmbeddingData>)
    requires IsProcessed(line)
    ensures r.Some? ==> r.value.text == Question(line) && svc.vectorOf(Question(line)) == Some(r.value.vector)
    ensures r.Some? && AnswerPart(line) != [] ==> r.value.answer == Some(TrimEnd(AnswerPart(line)))
    ensures r.Some? && AnswerPart(line) == [] ==> r.value.answer == svc.answerOf(Question(line))
    ensures r.None? <==>
      svc.vectorOf(Question(line)).None? || (AnswerPart(line) == [] && svc.answerOf(Question(line)).None?)
  {
    var question := Question(line);
    var after := AnswerPart(line);
    match svc.vectorOf(question)
    case None => None
    case Some(vector) =>
      if after != [] then Some(EmbeddingData(question, Some(TrimEnd(after)), vector))
      else
        match svc.answerOf(question)
        case None => None
        case Some(generated) => Some(EmbeddingData(question, Some(generated), vector))
  }

  /**
   * The records analyzeFile saves for `lines`, and whether it stopped early
   * because a call rejected (the rejection ends the loop).
   */
  datatype IngestResult = IngestResult(records: seq<EmbeddingData>, aborted: bool)

  function Ingest(lines: seq<string>, svc: Services): (r: IngestResult)
    ensures |r.records| <= |lines|
  {
    if lines == [] then IngestResult([], false)
    else
      var prev := Ingest(lines[..|lines| - 1], svc);
      var line := lines[|lines| - 1];
      if prev.aborted || !IsProcessed(line) then prev
      else
        match ProcessLine(line, svc)
        case None => IngestResult(prev.records, true)
        case Some(e) => IngestResult(prev.records + [e], false)
  }

  /** The lines that pass the filter, in file order. */
  function Processed(lines: seq<string>): (p: seq<string>)
    ensures |p| <= |lines|
    ensures forall j :: 0 <= j < |p| ==> IsProcessed(p[j])
  {
    if lines == [] then []
    else
      var prev := Processed(lines[..|lines| - 1]);
      if IsProcessed(lines[|lines| - 1]) then prev + [lines[|lines| - 1]] else prev
  }

  /**
   * The filter keeps exactly the lines that pass it, each as often as it
   * occurs in the file, and nothing else.
   */
  lemma {:induction false} ProcessedContents(lines: seq<string>)
    ensures forall x :: x in Processed(lines) <==> x in lines && IsProcessed(x)
    ensures forall x :: multiset(Processed(lines))[x] == if IsProcessed(x) then multiset(lines)[x] else 0
  {
    if lines != [] {
      var init, last := lines[..|lines| - 1], lines[|lines| - 1];
      ProcessedContents(init);
      assert lines == init + [last];
    }
  }

  /** The filter keeps the file order: filtering a concatenation concatenates the filtered parts. */
  lemma {:induction false} ProcessedAppend(a: seq<string>, b: seq<string>)
    ensures Processed(a + b) == Processed(a) + Processed(b)
  {
    if b != [] {
      var init, last := b[..|b| - 1], b[|b| - 1];
      ProcessedAppend(a, init);
      assert (a + b)[..|a + b| - 1] == a + init;
      assert (a + b)[|a + b| - 1] == last;
    } else {
      assert a + b == a;
    }
  }

  /**
   * One record per processed line, in file order: the j-th record is the one
   * built from the j-th processed line, skipped lines contribute nothing, and
   * the run either covers every processed line or stops at the first one
   * whose calls rejected.
   */
  lemma {:induction false} IngestFollowsProcessedLines(lines: seq<string>, svc: Services)
    ensures var r := Ingest(lines, svc); var p := Processed(lines);
      && |r.records| <= |p|
      && (forall j :: 0 <= j < |r.records| ==> ProcessLine(p[j], svc) == Some(r.records[j]))
      && (r.aborted <==> |r.records| < |p|)
      && (r.aborted ==> ProcessLine(p[|r.records|], svc).None?)
  {
    if lines != [] {
      var init := lines[..|lines| - 1];
      IngestFollowsProcessedLines(init, svc);
      var prev := Ingest(init, svc);
      var pp := Processed(init);
      var line := lines[|lines| - 1];
      if IsProcessed(line) {
        assert Processed(lines) == pp + [line];
        if !prev.aborted {
          assert |prev.records| == |pp|;
        }
      }
    }
  }

  /** Every record the loop saves was built from a line of the file that passes the filter. */
  lemma IngestRecordsComeFromFile(lines: seq<string>, svc: Services)
    ensures forall e :: e in Ingest(lines, svc).records ==>
      exists l :: l in lines && IsProcessed(l) && ProcessLine(l, svc) == Some(e)
  {
    var records := Ingest(lines, svc).records;
    IngestFollowsProcessedLines(lines, svc);
    ProcessedContents(lines);
    forall e | e in records
      ensures exists l :: l in lines && IsProcessed(l) && ProcessLine(l, svc) == Some(e)
    {
      var j :| 0 <= j < |records| && records[j] == e;
      assert Processed(lines)[j] in Processed(lines);
    }
  }

  /** A line that fails the filter leaves the run as it was. */
  lemma IngestSkip(lines: seq<string>, i: nat, svc: Services)
    requires i < |lines| && !IsProcessed(lines[i])
    ensures Ingest(lines[..i + 1], svc) == Ingest(lines[..i], svc)
  {
    assert lines[..i + 1][..i] == lines[..i];
  }

  /** A processed line whose record was built extends the run by that record. */
  lemma IngestSave(lines: seq<string>, i: nat, svc: Services, e: EmbeddingData)
    requires i < |lines| && IsProcessed(lines[i]) && ProcessLine(lines[i], svc) == Some(e)
    requires !Ingest(lines[..i], svc).aborted
    ensures Ingest(lines[..i + 1], svc) == IngestResult(Ingest(lines[..i], svc).records + [e], false)
  {
    assert lines[..i + 1][..i] == lines[..i];
  }

  /** A processed line whose calls rejected stops the run. */
  lemma IngestStop(lines: seq<string>, i: nat, svc: Services)
    requires i < |lines| && IsProcessed(lines[i]) && ProcessLine(lines[i], svc).None?
    requires !Ingest(lines[..i], svc).aborted
    ensures Ingest(lines[..i + 1], svc) == IngestResult(Ingest(lines[..i], svc).records, true)
  {
    assert lines[..i + 1][..i] == lines[..i];
  }

  lemma AppendAssociative<T>(a: seq<T>, b: seq<T>, c: seq<T>)
    ensures a + b + c == a + (b + c)
  {
  }

  /**
   * Because a line feed makes a text binary, analyzeFile never sees more
   * than one line: it saves at most one record, the one built from the whole
   * text when that text passes the filter.
   */
  lemma AnalyzedTextYieldsAtMostOneRecord(fileStr: string, svc: Services)
    requires !IsBinary(fileStr)
    ensures var r := Ingest(SplitOn(fileStr, '\n'), svc);
      && |r.records| <= 1
      && (r.records != [] <==> IsProcessed(fileStr) && ProcessLine(fileStr, svc).Some?)
      && (r.records != [] ==> r.records == [ProcessLine(fileStr, svc).value])
  {
    NonBinaryIsOneLine(fileStr);
    assert [fileStr][..0] == [];
  }

  /** Once a run has stopped, the remaining lines change nothing. */
  lemma {:induction false} IngestAfterAbort(lines: seq<string>, k: nat, svc: Services)
    requires k <= |lines| && Ingest(lines[..k], svc).aborted
    ensures Ingest(lines, svc) == Ingest(lines[..k], svc)
  {
    if k < |lines| {
      var init := lines[..|lines| - 1];
      assert init[..k] == lines[..k];
      IngestAfterAbort(init, k, svc);
    } else {
      assert lines[..k] == lines;
    }
  }

  /**
   * `Math.round((done / total) * 100)` over exact rationals: the percentage
   * rounded to the nearest integer, halves upwards.
   */
  function Percent(done: nat, total: nat): (p: int)
    requires total > 0
    ensures 2 * total * p <= 200 * done + total < 2 * total * (p + 1)
    ensures done <= total ==> 0 <= p <= 100
  {
    var p := (200 * done + total) / (2 * total);
    DivisionBounds(200 * done + total, 2 * total);
    if done <= total && p > 100 then
      MultiplyMonotone(2 * total, 101, p);
      p
    else p
  }

  /** The bar starts at 0 and reaches 100 once every line has been read. */
  lemma PercentEnds(total: nat)
    requires total > 0
    ensures Percent(0, total) == 0 && Percent(total, total) == 100
  {
    var p0 := Percent(0, total);
    if p0 >= 1 {
      MultiplyMonotone(2 * total, 1, p0);
    }
    var p1 := Percent(total, total);
    if p1 <= 99 {
      MultiplyMonotone(2 * total, p1 + 1, 100);
    }
  }

  /** More lines read never makes the bar go back. */
  lemma PercentMonotone(a: nat, b: nat, total: nat)
    requires total > 0 && a <= b
    ensures Percent(a, total) <= Percent(b, total)
  {
  }

  lemma DivisionBounds(a: nat, b: nat)
    requires b > 0
    ensures b * (a / b) <= a < b * (a / b + 1)
  {
  }

  lemma MultiplyMonotone(b: nat, x: int, y: int)
    requires x <= y
    ensures b * x <= b * y
  {
  }

  /** The snackbar of the page: its message and whether it is shown. */
  datatype Snackbar = Snackbar(message: string, open: bool)

  const ANALYZE_STEP := "[2/2] Analyze File"
  const BINARY_FILE := "The provided file seems to be a binary file."
  const SET_API_KEY := "Please set the API key in the Settings Page."
  const ENTER_QUESTION := "Please enter a question."
  const ENTER_ANSWER := "Please enter an answer."
  const SET_MONGO_SETTINGS := "Please set the MongoDB settings in the Settings page."
  const SAVE_FAILED := "Error saving vector to the database."

  /** A setting is truthy when it is neither null nor empty. */
  predicate IsSet(setting: Option<string>)
  {
    setting.Some? && setting.value != []
  }

  /**
   * The snackbar after insertMongoRecord: the settings warning when a Mongo
   * setting is missing (the save is attempted anyway), then the save error
   * when the save was not accepted.
   */
  function AfterSave(s: Snackbar, configured: bool, accepted: bool): (r: Snackbar)
    ensures !accepted ==> r == Snackbar(SAVE_FAILED, true)
    ensures accepted && !configured ==> r == Snackbar(SET_MONGO_SETTINGS, true)
    ensures accepted && configured ==> r == s
  {
    var warned := if configured then s else Snackbar(SET_MONGO_SETTINGS, true);
    if accepted then warned else Snackbar(SAVE_FAILED, true)
  }

  /**
   * The snackbar after a run of saves: untouched when there were none; the
   * save error when the last save was not accepted; the settings warning
   * when a setting is missing (every save repeats it); and with both
   * settings present, the save error when any save was not accepted.
   */
  function AfterSaves(s: Snackbar, configured: bool, saves: seq<EmbeddingData>, accepted: EmbeddingData -> bool): Snackbar
  {
    if saves == [] then s
    else if !accepted(saves[|saves| - 1]) then Snackbar(SAVE_FAILED, true)
    else if !configured then Snackbar(SET_MONGO_SETTINGS, true)
    else if exists e :: e in saves && !accepted(e) then Snackbar(SAVE_FAILED, true)
    else s
  }

  /**
   * What a run of saves leaves showing: nothing new when there were no saves,
   * or every save was accepted with both settings present; otherwise the
   * save error, unless the settings warning of a later save replaced it.
   */
  lemma AfterSavesReports(s: Snackbar, configured: bool, saves: seq<EmbeddingData>, accepted: EmbeddingData -> bool)
    ensures var r := AfterSaves(s, configured, saves, accepted);
      && (saves == [] || (configured && forall e :: e in saves ==> accepted(e)) ==> r == s)
      && ((exists e :: e in saves && !accepted(e)) ==>
        r == Snackbar(SAVE_FAILED, true) || (!configured && r == Snackbar(SET_MONGO_SETTINGS, true)))
      && (saves != [] && !configured ==> r.open && (r.message == SAVE_FAILED || r.message == SET_MONGO_SETTINGS))
  {
  }

  /** One more save moves the snackbar on as insertMongoRecord does. */
  lemma AfterSavesStep(s: Snackbar, configured: bool, saves: seq<EmbeddingData>, e: EmbeddingData, accepted: EmbeddingData -> bool)
    ensures AfterSaves(s, configured, saves + [e], accepted)
      == AfterSave(AfterSaves(s, configured, saves, accepted), configured, accepted(e))
  {
  }

  /**
   * The record handleSingleRecord saves once its guards pass, or None when a
   * call it awaits rejects: the question with its embedding, and the
   * generated answer when auto-generation is on; otherwise the answer stays
   * null, whatever the user typed in the answer field.
   */
  function SingleRecord(question: string, autoGenerateAnswer: bool, svc: Services): (r: Option<EmbeddingData>)
    ensures r.Some? ==> r.value.text == question && svc.vectorOf(question) == Some(r.value.vector)
    ensures r.Some? ==> r.value.answer == if autoGenerateAnswer then svc.answerOf(question) else None
    ensures r.None? <==> svc.vectorOf(question).None? || (autoGenerateAnswer && svc.answerOf(question).None?)
  {
    match svc.vectorOf(question)
    case None => None
    case Some(vector) =>
      if !autoGenerateAnswer then Some(EmbeddingData(question, None, vector))
      else
        match svc.answerOf(question)
        case None => None
        case Some(generated) => Some(EmbeddingData(question, Some(generated), vector))
  }

  /** The body of the POST to /api/getVectorsCount. */
  datatype CountRequest = CountRequest(mongoUri: string, mongoDbName: string)

  /** The count getVectorsCount resolves to and the request it made, if any. */
  datatype CountLookup = CountLookup(count: int, request: Option<CountRequest>)

  /**
   * getVectorsCount: -2 without any request when a Mongo setting is null;
   * otherwise the count the endpoint answers (which is -1 when the endpoint
   * could not reach the database).
   */
  function GetVectorsCount(mongoUri: Option<string>, mongoDbName: Option<string>, respond: CountRequest -> int): (r: CountLookup)
    ensures r.request.None? <==> mongoUri.None? || mongoDbName.None?
    ensures r.request.None? ==> r.count == -2
    ensures r.request.Some? ==>
      r.request.value == CountRequest(mongoUri.value, mongoDbName.value) && r.count == respond(r.request.value)
  {
    if mongoUri.None? || mongoDbName.None? then CountLookup(-2, None)
    else
      var request := CountRequest(mongoUri.value, mongoDbName.value);
      CountLookup(respond(request), Some(request))
  }

  /** What the page shows for a count: nothing, a connection error, or the count. */
  datatype CountDisplay = Hidden | ConnectionError | Collections(count: int)

  function DisplayCount(vectorsCount: int): (d: CountDisplay)
    ensures d == Hidden <==> vectorsCount <= -2
    ensures d == ConnectionError <==> vectorsCount == -1
    ensures d.Collections? ==> d.count == vectorsCount && vectorsCount >= 0
  {
    if vectorsCount <= -2 then Hidden
    else if vectorsCount <= -1 then ConnectionError
    else Collections(vectorsCount)
  }

  /** Without both Mongo settings the page shows no count at all. */
  lemma UnconfiguredCountIsHidden(mongoUri: Option<string>, mongoDbName: Option<string>, respond: CountRequest -> int)
    requires mongoUri.None? || mongoDbName.None?
    ensures GetVectorsCount(mongoUri, mongoDbName, respond).request.None?
    ensures DisplayCount(GetVectorsCount(mongoUri, mongoDbName, respond).count) == Hidden
  {
  }

  /**
   * getVectorsCount tests the settings against null while insertMongoRecord
   * tests them for truthiness: with an empty setting the page asks for the
   * count, yet warns about the settings on every save.
   */
  lemma EmptySettingCountsButWarns(mongoUri: Option<string>, mongoDbName: Option<string>, respond: CountRequest -> int)
    requires mongoUri == Some([]) && mongoDbName.Some?
    ensures GetVectorsCount(mongoUri, mongoDbName, respond).request.Some?
    ensures !(IsSet(mongoUri) && IsSet(mongoDbName))
  {
  }

  /** How a call of analyzeFile ended. */
  datatype AnalysisOutcome = NoApiKey | BinaryFile | Completed | Aborted

  /** How a call of handleSingleRecord ended. */
  datatype SingleOutcome = MissingApiKey | MissingQuestion | MissingAnswer | SingleAborted | Saved

  /**
   * The state of the home page that its handlers change, with the settings
   * it read from local storage. `inserted` is the sequence of records posted
   * to the save endpoint, in order.
   */
  class Home {
    const apiKey: Option<string>
    const mongoUri: Option<string>
    const mongoDbName: Option<string>
    var snackbar: Snackbar
    var step: string
    var current: int
    var total: int
    var progress: int
    var simulateLoading: bool
    var vectorsCount: int
    var inserted: seq<EmbeddingData>

    constructor (apiKey: Option<string>, mongoUri: Option<string>, mongoDbName: Option<string>)
      ensures this.apiKey == apiKey && this.mongoUri == mongoUri && this.mongoDbName == mongoDbName
      ensures snackbar == Snackbar("", false) && step == ""
      ensures current == 0 && total == 0 && progress == 0
      ensures !simulateLoading && vectorsCount == 0 && inserted == []
    {
      this.apiKey := apiKey;
      this.mongoUri := mongoUri;
      this.mongoDbName := mongoDbName;
      snackbar := Snackbar("", false);
      step := "";
      current, total, progress := 0, 0, 0;
      simulateLoading := false;
      vectorsCount := 0;
      inserted := [];
    }

    /** Both Mongo settings are truthy; a configured page is never short of a setting for the count. */
    predicate MongoConfigured()
      ensures MongoConfigured() ==> mongoUri.Some? && mongoDbName.Some?
    {
      IsSet(mongoUri) && IsSet(mongoDbName)
    }

    /** fetchVectorsCount: stores what getVectorsCount resolves to. */
    method FetchVectorsCount(respond: CountRequest -> int)
      modifies this`vectorsCount
      ensures vectorsCount == GetVectorsCount(mongoUri, mongoDbName, respond).count
      ensures vectorsCount == -2 <==> mongoUri.None? || mongoDbName.None? || respond(CountRequest(mongoUri.value, mongoDbName.value)) == -2
    {
      var lookup := GetVectorsCount(mongoUri, mongoDbName, respond);
      vectorsCount := lookup.count;
    }

    /**
     * insertMongoRecord: warns when a Mongo setting is missing, posts the
     * record regardless, and reports a save that was not accepted.
     */
    method InsertMongoRecord(e: EmbeddingData, svc: Services)
      modifies this`snackbar, this`inserted
      ensures inserted == old(inserted) + [e]
      ensures snackbar == AfterSave(old(snackbar), MongoConfigured(), svc.saveAccepted(e))
    {
      if !MongoConfigured() {
        snackbar := Snackbar(SET_MONGO_SETTINGS, true);
      }
      inserted := inserted + [e];
      if !svc.saveAccepted(e) {
        snackbar := Snackbar(SAVE_FAILED, true);
      }
    }

    /**
     * The body of analyzeFile's loop for a line that passed the filter: build
     * its record from the text before and after the comma, then save it.
     * None when generateVector or generateAnswer rejected; nothing is saved
     * then.
     */
    method AnalyzeLine(line: string, svc: Services) returns (saved: Option<EmbeddingData>)
      requires IsProcessed(line)
      modifies this`snackbar, this`inserted
      ensures saved == ProcessLine(line, svc)
      ensures saved.None? ==> inserted == old(inserted) && snackbar == old(snackbar)
      ensures saved.Some? ==>
        && inserted == old(inserted) + [saved.value]
        && snackbar == AfterSave(old(snackbar), MongoConfigured(), svc.saveAccepted(saved.value))
    {
      var parts := SplitOn(line, ',');
      var vector := svc.vectorOf(parts[0]);
      if vector.None? {
        return None;
      }
      var embeddingData := EmbeddingData(parts[0], None, vector.value);
      if |parts[1]| > 0 {
        embeddingData := embeddingData.(answer := Some(TrimEnd(parts[1])));
      } else {
        var generated := svc.answerOf(parts[0]);
        if generated.None? {
          return None;
        }
        embeddingData := embeddingData.(answer := Some(generated.value));
      }
      InsertMongoRecord(embeddingData, svc);
      return Some(embeddingData);
    }

    /**
     * analyzeFile: nothing without an API key; a binary text is reported and
     * nothing is saved; otherwise the text is split into lines and one record
     * is saved per processed line, in order, with the counters and the
     * progress percentage updated after each save. A rejected call ends the
     * run with the records saved so far.
     */
    method AnalyzeFile(fileStr: string, svc: Services) returns (outcome: AnalysisOutcome)
      modifies this
      ensures simulateLoading == old(simulateLoading) && vectorsCount == old(vectorsCount)
      ensures apiKey.None? ==> outcome == NoApiKey && unchanged(this)
      ensures apiKey.Some? ==> step == ANALYZE_STEP && 0 <= current <= total && 0 <= progress <= 100
      ensures apiKey.Some? && IsBinary(fileStr) ==>
        && outcome == BinaryFile
        && snackbar == Snackbar(BINARY_FILE, true)
        && current == 0 && total == 0 && progress == 0
        && inserted == old(inserted)
      ensures apiKey.Some? && !IsBinary(fileStr) ==>
        var lines := SplitOn(fileStr, '\n');
        var r := Ingest(lines, svc);
        && outcome == (if r.aborted then Aborted else Completed)
        && inserted == old(inserted) + r.records
        && snackbar == AfterSaves(old(snackbar), MongoConfigured(), r.records, svc.saveAccepted)
        && current == |r.records|
        && total == (if r.records == [] then 0 else |lines|)
        && progress == (if r.records == [] then 0 else Percent(|r.records|, |lines|))
    {
      if apiKey.None? {
        return NoApiKey;
      }
      step := ANALYZE_STEP;
      current, total, progress := 0, 0, 0;

      if IsBinary(fileStr) {
        snackbar := Snackbar(BINARY_FILE, true);
        return BinaryFile;
      }
      var lines := SplitOn(fileStr, '\n');
      var aborted := AnalyzeLines(lines, svc);
      outcome := if aborted then Aborted else Completed;
    }

    /**
     * Where analyzeFile's loop stands before line `i`: the records `Ingest`
     * gives for the earlier lines were posted after `inserted0`, the snackbar
     * moved on from `snackbar0` save by save, and the counters and the
     * percentage show the last save.
     */
    ghost predicate LoopState(lines: seq<string>, i: nat, svc: Services, inserted0: seq<EmbeddingData>, snackbar0: Snackbar)
      requires i <= |lines|
      reads this
    {
      var run := Ingest(lines[..i], svc);
      && !run.aborted
      && inserted == inserted0 + run.records
      && snackbar == AfterSaves(snackbar0, MongoConfigured(), run.records, svc.saveAccepted)
      && current == |run.records|
      && total == (if current == 0 then 0 else |lines|)
      && progress == (if current == 0 then 0 else Percent(current, |lines|))
    }

    /**
     * One pass of analyzeFile's loop, over line `i`: a line that fails the
     * filter is skipped, any other is recorded. `stopped` when a call
     * rejected, and then nothing changes.
     */
    method AnalyzeStep(lines: seq<string>, i: nat, currentLine: nat, svc: Services,
                       ghost inserted0: seq<EmbeddingData>, ghost snackbar0: Snackbar)
      returns (stopped: bool, nextLine: nat)
      requires i < |lines| && currentLine == current
      requires LoopState(lines, i, svc, inserted0, snackbar0)
      modifies this`snackbar, this`inserted, this`current, this`total, this`progress
      ensures stopped <==> Ingest(lines[..i + 1], svc).aborted
      ensures stopped ==> unchanged(this) && Ingest(lines[..i + 1], svc).records == Ingest(lines[..i], svc).records
      ensures !stopped ==> nextLine == current && LoopState(lines, i + 1, svc, inserted0, snackbar0)
    {
      var line := lines[i];
      if Count(line, ',') != 1 {
        IngestSkip(lines, i, svc);
        return false, currentLine;
      }
      if Utf16Length(line) >= MAX_LINE_LENGTH {
        IngestSkip(lines, i, svc);
        return false, currentLine;
      }
      stopped, nextLine := RecordLine(lines, i, currentLine, svc, inserted0, snackbar0);
    }

    /**
     * The rest of the pass for a line that passed the filter: its record is
     * built and saved, then the line counter, the line total and the
     * percentage are set. `stopped` when a call rejected, and then nothing
     * changes.
     */
    method RecordLine(lines: seq<string>, i: nat, currentLine: nat, svc: Services,
                      ghost inserted0: seq<EmbeddingData>, ghost snackbar0: Snackbar)
      returns (stopped: bool, nextLine: nat)
      requires i < |lines| && IsProcessed(lines[i]) && currentLine == current
      requires LoopState(lines, i, svc, inserted0, snackbar0)
      modifies this`snackbar, this`inserted, this`current, this`total, this`progress
      ensures stopped <==> Ingest(lines[..i + 1], svc).aborted
      ensures stopped ==> unchanged(this) && Ingest(lines[..i + 1], svc).records == Ingest(lines[..i], svc).records
      ensures !stopped ==> nextLine == current && LoopState(lines, i + 1, svc, inserted0, snackbar0)
    {
      ghost var run := Ingest(lines[..i], svc);
      var saved := AnalyzeLine(lines[i], svc);
      if saved.None? {
        IngestStop(lines, i, svc);
        return true, currentLine;
      }
      IngestSave(lines, i, svc, saved.value);
      ghost var records := run.records + [saved.value];
      AfterSavesStep(snackbar0, MongoConfigured(), run.records, saved.value, svc.saveAccepted);
      AppendAssociative(inserted0, run.records, [saved.value]);
      nextLine := currentLine + 1;
      current := nextLine;
      total := |lines|;
      progress := Percent(nextLine, |lines|);
      assert inserted == inserted0 + records;
      assert snackbar == AfterSaves(snackbar0, MongoConfigured(), records, svc.saveAccepted);
      assert current == |records|;
      return false, nextLine;
    }

    /**
     * The loop of analyzeFile over the lines of a text, entered with the
     * counters at zero: skips the lines that fail the filter, saves one
     * record per other line and then sets the line counter, the line total
     * and the percentage; stops at the first line whose calls rejected.
     */
    method AnalyzeLines(lines: seq<string>, svc: Services) returns (aborted: bool)
      requires |lines| > 0 && current == 0 && total == 0 && progress == 0
      modifies this`snackbar, this`inserted, this`current, this`total, this`progress
      ensures var r := Ingest(lines, svc);
        && aborted == r.aborted
        && inserted == old(inserted) + r.records
        && snackbar == AfterSaves(old(snackbar), MongoConfigured(), r.records, svc.saveAccepted)
        && current == |r.records| <= |lines|
        && total == (if r.records == [] then 0 else |lines|)
        && progress == (if r.records == [] then 0 else Percent(|r.records|, |lines|))
    {
      var currentLine := 0;
      assert lines[..0] == [];
      for i := 0 to |lines|
        invariant currentLine == current
        invariant LoopState(lines, i, svc, old(inserted), old(snackbar))
      {
        var stopped;
        stopped, currentLine := AnalyzeStep(lines, i, currentLine, svc, old(inserted), old(snackbar));
        if stopped {
          IngestAfterAbort(lines, i + 1, svc);
          assert lines[..|lines|] == lines;
          return true;
        }
      }
      assert lines[..|lines|] == lines;
      return false;
    }

    /**
     * handleSingleRecord: checks the API key, then a non-empty question, then
     * a non-empty answer when auto-generation is off, and saves nothing when
     * a check fails (only the missing key opens the snackbar); otherwise it
     * saves the question's record. A rejected call leaves the page loading.
     */
    method HandleSingleRecord(question: string, answer: string, autoGenerateAnswer: bool, svc: Services)
      returns (outcome: SingleOutcome)
      modifies this
      ensures step == old(step) && current == old(current) && total == old(total) && progress == old(progress)
      ensures vectorsCount == old(vectorsCount)
      ensures apiKey.None? ==>
        && outcome == MissingApiKey && snackbar == Snackbar(SET_API_KEY, true)
        && inserted == old(inserted) && simulateLoading == old(simulateLoading)
      ensures apiKey.Some? && question == [] ==>
        && outcome == MissingQuestion && snackbar == old(snackbar).(message := ENTER_QUESTION)
        && inserted == old(inserted) && simulateLoading == old(simulateLoading)
      ensures apiKey.Some? && question != [] && answer == [] && !autoGenerateAnswer ==>
        && outcome == MissingAnswer && snackbar == old(snackbar).(message := ENTER_ANSWER)
        && inserted == old(inserted) && simulateLoading == old(simulateLoading)
      ensures apiKey.Some? && question != [] && (answer != [] || autoGenerateAnswer) ==>
        match SingleRecord(question, autoGenerateAnswer, svc)
        case None =>
          outcome == SingleAborted && simulateLoading && inserted == old(inserted) && snackbar == old(snackbar)
        case Some(e) =>
          && outcome == Saved && !simulateLoading && inserted == old(inserted) + [e]
          && snackbar == AfterSave(old(snackbar), MongoConfigured(), svc.saveAccepted(e))
    {
      if apiKey.None? {
        snackbar := Snackbar(SET_API_KEY, true);
        return MissingApiKey;
      }
      if Utf16Length(question) <= 0 {
        snackbar := snackbar.(message := ENTER_QUESTION);
        return MissingQuestion;
      }
      if Utf16Length(answer) <= 0 && !autoGenerateAnswer {
        snackbar := snackbar.(message := ENTER_ANSWER);
        return MissingAnswer;
      }
      simulateLoading := true;
      var vector := svc.vectorOf(question);
      if vector.None? {
        return SingleAborted;
      }
      var embeddingData := EmbeddingData(question, None, vector.value);
      if autoGenerateAnswer {
        var generated := svc.answerOf(question);
        if generated.None? {
          return SingleAborted;
        }
        embeddingData := embeddingData.(answer := Some(generated.value));
      }
      InsertMongoRecord(embeddingData, svc);
      simulateLoading := false;
      return Saved;
    }
  }
}
