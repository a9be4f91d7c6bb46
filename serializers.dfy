/** Input validation and creation in the REST layer (app/core/serializers.py):
    the Telegram bot-token check, the file/content requirement of a
    knowledge-base upload, and `create`, which pre-sets the status and runs
    the processor. */
module Serializers {
  import opened Wrappers
  import opened Text
  import opened Knowledge
  import opened Embeddings
  import opened Documents

  // ---------------------------------------------------------------------------
  // BotSerializer.validate_telegram_token

  const InvalidToken: string :=
    "Invalid Telegram token format. Must be like: 123456:ABC-DEF1234ghIkl-zyx57W2v1u123ew11"

  /** `[A-Za-z0-9_-]`. */
  predicate SecretChar(c: char) {
    ('A' <= c <= 'Z') || ('a' <= c <= 'z') || ('0' <= c <= '9') || c == '_' || c == '-'
  }

  /** The token shape: digits, one colon, secret characters, none of the
      three parts empty. */
  predicate TokenShape(t: string) {
    exists i :: 0 < i < |t| - 1 && t[i] == ':'
      && (forall j :: 0 <= j < i ==> IsDigit(t[j]))
      && (forall j :: i < j < |t| ==> SecretChar(t[j]))
  }

  /** Where `^\d+:[A-Za-z0-9_-]+$` stands while matching. */
  datatype TokenState = NoDigit | InDigits | NoSecret | InSecret

  /** `re.match(r'^\d+:[A-Za-z0-9_-]+$', s[i..])` from state `st`. Python's
      `$` matches at the end and before a final newline. */
  function MatchFrom(s: string, i: nat, st: TokenState): bool
    requires i <= |s|
    decreases |s| - i
  {
    if i == |s| then st == InSecret
    else if i == |s| - 1 && s[i] == '\n' && st == InSecret then true
    else
      var c := s[i];
      match st
      case NoDigit => IsDigit(c) && MatchFrom(s, i + 1, InDigits)
      case InDigits =>
        if IsDigit(c) then MatchFrom(s, i + 1, InDigits)
        else c == ':' && MatchFrom(s, i + 1, NoSecret)
      case NoSecret => SecretChar(c) && MatchFrom(s, i + 1, InSecret)
      case InSecret => SecretChar(c) && MatchFrom(s, i + 1, InSecret)
  }

  /** `validate_telegram_token`. */
  function ValidateTelegramToken(value: string): (r: Result<string, string>)
    ensures r.Success? ==> r.value == value
    ensures r.Failure? ==> r.error == InvalidToken
  {
    if MatchFrom(value, 0, NoDigit) then Success(value) else Failure(InvalidToken)
  }

  /** The part of a token before one final newline, which `$` lets through. */
  function TokenBody(s: string): (r: string)
    ensures |r| <= |s| && r == s[..|r|]
  {
    if |s| > 0 && s[|s| - 1] == '\n' then s[..|s| - 1] else s
  }

  /** From the secret part: the rest of the body is secret characters. */
  lemma {:induction false} SecretTail(s: string, i: nat, st: TokenState)
    requires i <= |TokenBody(s)| && (st == NoSecret || st == InSecret)
    ensures MatchFrom(s, i, st) <==>
      && (st == NoSecret ==> i < |TokenBody(s)|)
      && (forall j :: i <= j < |TokenBody(s)| ==> SecretChar(s[j]))
    decreases |s| - i
  {
    if i < |TokenBody(s)| {
      SecretTail(s, i + 1, InSecret);
    }
  }

  /** From the digit part: more digits, one colon, then the secret part. */
  lemma {:induction false} DigitRun(s: string, i: nat, st: TokenState)
    requires i <= |s| && (st == NoDigit || st == InDigits)
    ensures MatchFrom(s, i, st) <==>
      exists k :: i <= k < |s| && (st == NoDigit ==> i < k) && s[k] == ':'
        && (forall j :: i <= j < k ==> IsDigit(s[j]))
        && MatchFrom(s, k + 1, NoSecret)
    decreases |s| - i
  {
    if i < |s| {
      if IsDigit(s[i]) {
        DigitRun(s, i + 1, InDigits);
        if MatchFrom(s, i, st) {
          var k :| i + 1 <= k < |s| && s[k] == ':'
            && (forall j :: i + 1 <= j < k ==> IsDigit(s[j])) && MatchFrom(s, k + 1, NoSecret);
          assert i <= k < |s| && (st == NoDigit ==> i < k) && (forall j :: i <= j < k ==> IsDigit(s[j]));
        }
      } else if MatchFrom(s, i, st) {
        assert s[i] == ':';
      }
    }
  }

  /** An accepted token has the token shape before its final newline. */
  lemma AcceptedIsShaped(value: string)
    requires MatchFrom(value, 0, NoDigit)
    ensures TokenShape(TokenBody(value))
  {
    DigitRun(value, 0, NoDigit);
    var k :| 0 < k < |value| && value[k] == ':'
      && (forall j :: 0 <= j < k ==> IsDigit(value[j])) && MatchFrom(value, k + 1, NoSecret);
    var t := TokenBody(value);
    assert k + 1 <= |t|;
    SecretTail(value, k + 1, NoSecret);
    assert 0 < k < |t| - 1 && t[k] == ':';
    assert forall j :: 0 <= j < k ==> IsDigit(t[j]);
    assert forall j :: k < j < |t| ==> SecretChar(t[j]);
  }

  /** Digits up to a colon at `k`, then an accepted secret part, are
      accepted. */
  lemma {:induction false} DigitsAccepted(s: string, i: nat, st: TokenState, k: nat)
    requires i <= k < |s| && (st == NoDigit || st == InDigits) && (st == NoDigit ==> i < k)
    requires s[k] == ':' && forall j :: i <= j < k ==> IsDigit(s[j])
    requires MatchFrom(s, k + 1, NoSecret)
    ensures MatchFrom(s, i, st)
    decreases k - i
  {
    if i < k {
      DigitsAccepted(s, i + 1, InDigits, k);
    }
  }

  /** A token shaped before its final newline is accepted. */
  lemma ShapedIsAccepted(value: string)
    requires TokenShape(TokenBody(value))
    ensures MatchFrom(value, 0, NoDigit)
  {
    var t := TokenBody(value);
    var i :| 0 < i < |t| - 1 && t[i] == ':'
      && (forall j :: 0 <= j < i ==> IsDigit(t[j]))
      && (forall j :: i < j < |t| ==> SecretChar(t[j]));
    SecretTail(value, i + 1, NoSecret);
    assert MatchFrom(value, i + 1, NoSecret);
    assert value[i] == ':' && forall j :: 0 <= j < i ==> IsDigit(value[j]);
    DigitsAccepted(value, 0, NoDigit, i);
  }

  /** A token is accepted exactly when it has the token shape, or has it
      with one newline appended. */
  lemma TokenAccepted(value: string)
    ensures ValidateTelegramToken(value).Success? <==> TokenShape(TokenBody(value))
    ensures TokenShape(TokenBody(value)) <==>
      TokenShape(value) || (|value| > 0 && value[|value| - 1] == '\n' && TokenShape(value[..|value| - 1]))
  {
    if MatchFrom(value, 0, NoDigit) {
      AcceptedIsShaped(value);
    }
    if TokenShape(TokenBody(value)) {
      ShapedIsAccepted(value);
    }
  }

  // ---------------------------------------------------------------------------
  // KnowledgeBaseFileSerializer

  const FileRequiredForDocuments: string := "File is required for PDF/DOCX file types"
  const ContentRequired: string := "Content is required for text file type"

  /** The submitted fields `validate` looks at: the file type (absent when
      not given), whether a file is attached, and the content (`""` when
      absent or null). */
  datatype Upload = Upload(fileType: Option<string>, hasFile: bool, content: string)

  /** `KnowledgeBaseFileSerializer.validate`. */
  function Validate(attrs: Upload): (r: Result<Upload, string>)
    ensures r.Success? ==> r.value == attrs
  {
    if attrs.fileType.Some? && attrs.fileType.value in {"pdf", "docx"} && !attrs.hasFile then
      Failure(FileRequiredForDocuments)
    else if attrs.fileType == Some("text") && attrs.content == [] then
      Failure(ContentRequired)
    else Success(attrs)
  }

  /** A pdf or docx upload needs a file, a text upload needs content, and
      nothing else is ever rejected (a `url` or unknown type included). */
  lemma ValidateRules(attrs: Upload)
    ensures Validate(attrs).Failure? <==>
      (attrs.fileType in {Some("pdf"), Some("docx")} && !attrs.hasFile)
      || (attrs.fileType == Some("text") && attrs.content == [])
    ensures attrs.fileType in {Some("pdf"), Some("docx")} && !attrs.hasFile ==>
      Validate(attrs) == Failure(FileRequiredForDocuments)
    ensures attrs.fileType == Some("text") && attrs.content == [] ==>
      Validate(attrs) == Failure(ContentRequired)
  {
  }

  /** The row `super().create` inserts for the validated data. */
  function Inserted(id: int, name: string, botId: int, fileType: string, hasFile: bool, content: string): FileRecord {
    FileRecord(id, name, botId, fileType, hasFile, content, Pending, None, None, None, None, 0)
  }

  /** The row after `create`: a text row is marked ready and a pdf/docx row
      processing before the processor runs; any other type is stored as it
      is. */
  function Created(rec: FileRecord, source: FileSource, api: EmbeddingsApi, now: int): FileRecord {
    if rec.fileType == "text" then Processed(rec.(status := Ready), source, api, now).record
    else if rec.fileType == "pdf" || rec.fileType == "docx" then Processed(rec.(status := Processing), source, api, now).record
    else rec
  }

  /** `KnowledgeBaseFileSerializer.create`. The processor's exceptions are
      swallowed; the model's processor raises none. */
  method Create(id: int, name: string, botId: int, fileType: string, hasFile: bool, content: string,
                source: FileSource, api: EmbeddingsApi, now: int)
    returns (instance: KnowledgeFile)
    ensures fresh(instance)
    ensures instance.Record() == Created(Inserted(id, name, botId, fileType, hasFile, content), source, api, now)
  {
    instance := new KnowledgeFile(id, name, botId, fileType, hasFile, content);
    if instance.fileType == "text" {
      instance.status := Ready;
      var _, _ := ProcessKnowledgeFile(instance, source, api, now);
    } else if instance.fileType == "pdf" || instance.fileType == "docx" {
      instance.status := Processing;
      var _, _ := ProcessKnowledgeFile(instance, source, api, now);
    }
  }

  /** The status `create` leaves: a text row is always ready; a pdf/docx
      row is ready or in error once processed, and stays `processing` only
      when it has no file (which `validate` rejects); any other type keeps
      `pending` and is never processed. */
  lemma CreatedStatus(rec: FileRecord, source: FileSource, api: EmbeddingsApi, now: int)
    ensures rec.fileType == "text" ==> Created(rec, source, api, now).status == Ready
    ensures (rec.fileType == "pdf" || rec.fileType == "docx") && rec.hasFile ==>
      Created(rec, source, api, now).status in {Ready, Error}
    ensures (rec.fileType == "pdf" || rec.fileType == "docx") && !rec.hasFile ==>
      Created(rec, source, api, now) == rec.(status := Processing)
    ensures rec.fileType != "text" && rec.fileType != "pdf" && rec.fileType != "docx" ==>
      Created(rec, source, api, now) == rec
  {
    if rec.fileType == "text" {
      ProcessingOutcome(rec.(status := Ready), source, api, now);
    } else if rec.fileType == "pdf" || rec.fileType == "docx" {
      ProcessingOutcome(rec.(status := Processing), source, api, now);
    }
  }
}
