/** The AI provider layer (app/ai_services/providers.py): the message list
    sent to OpenAI, the single prompt string sent to Gemini, and the factory
    that picks a provider from the settings. The network calls are
    parameters. */
module Providers {
  import opened Wrappers
  import opened Text

  /** A chat message as the bot stores it. */
  datatype ChatMessage = ChatMessage(role: string, content: string)

  /** `system_prompt=None` and `""` are both falsy. */
  predicate Truthy(systemPrompt: Option<string>) {
    systemPrompt.Some? && systemPrompt.value != []
  }

  // ---------------------------------------------------------------------------
  // OpenAI

  /** The messages `OpenAIService.chat_completion` sends. */
  function OpenAIMessages(messages: seq<ChatMessage>, systemPrompt: Option<string>): (r: seq<ChatMessage>)
    ensures Truthy(systemPrompt) ==> |r| == |messages| + 1 && r[0] == ChatMessage("system", systemPrompt.value) && r[1..] == messages
    ensures !Truthy(systemPrompt) ==> r == messages
  {
    (if Truthy(systemPrompt) then [ChatMessage("system", systemPrompt.value)] else []) + messages
  }

  /** `OpenAIService.chat_completion`, with `complete` the completions
      endpoint: its reply, or the exception it raised, passed on. */
  function OpenAIChatCompletion(messages: seq<ChatMessage>, systemPrompt: Option<string>,
                                complete: seq<ChatMessage> -> Result<string, string>): (r: Result<string, string>)
    ensures r == complete(OpenAIMessages(messages, systemPrompt))
  {
    complete(OpenAIMessages(messages, systemPrompt))
  }

  /** The prompt that steers Whisper towards Cyrillic Uzbek. */
  const TranscriptionPrompt: string := "Бу ўзбек тилида расмий арiza. Кирилл ёзувида транскрипция қилинг."

  /** `OpenAIService.transcribe_audio`, with `transcribe` the Whisper call
      taking the audio and the prompt; no language is passed. */
  function OpenAITranscribeAudio<Audio>(audio: Audio, transcribe: (Audio, string) -> Result<string, string>): (r: Result<string, string>)
    ensures r == transcribe(audio, TranscriptionPrompt)
  {
    transcribe(audio, TranscriptionPrompt)
  }

  // ---------------------------------------------------------------------------
  // Gemini

  const NoGeminiAudio: string := "Please use OpenAI for audio transcription or implement Chirp API"

  /** `GeminiService.transcribe_audio` always raises `NotImplementedError`. */
  function GeminiTranscribeAudio<Audio>(audio: Audio): (r: Result<string, string>)
    ensures r.Failure? && r.error == NoGeminiAudio
  {
    Failure(NoGeminiAudio)
  }

  const AssistantCue: string := "Assistant: "

  /** The prompt part of one message; roles other than `user` and
      `assistant` contribute nothing. */
  function MessagePart(m: ChatMessage): string {
    if m.role == "user" then "User: " + m.content + "\n"
    else if m.role == "assistant" then AssistantCue + m.content + "\n"
    else []
  }

  /** The parts for the messages, in order. */
  function MessageParts(messages: seq<ChatMessage>): seq<string> {
    if messages == [] then []
    else
      var rest := MessageParts(messages[..|messages| - 1]);
      var m := messages[|messages| - 1];
      if m.role == "user" || m.role == "assistant" then rest + [MessagePart(m)] else rest
  }

  function SystemPart(systemPrompt: Option<string>): string {
    if Truthy(systemPrompt) then "System: " + systemPrompt.value + "\n\n" else []
  }

  /** The prompt `GeminiService.chat_completion` sends. */
  function GeminiPrompt(messages: seq<ChatMessage>, systemPrompt: Option<string>): string {
    Concat((if Truthy(systemPrompt) then [SystemPart(systemPrompt)] else []) + MessageParts(messages) + [AssistantCue])
  }

  /** The prompt-building loop of `GeminiService.chat_completion`. */
  method BuildGeminiPrompt(messages: seq<ChatMessage>, systemPrompt: Option<string>) returns (fullPrompt: string)
    ensures fullPrompt == GeminiPrompt(messages, systemPrompt)
  {
    var promptParts: seq<string> := [];
    if systemPrompt.Some? && systemPrompt.value != [] {
      promptParts := promptParts + ["System: " + systemPrompt.value + "\n\n"];
    }
    ghost var head := promptParts;
    assert head == (if Truthy(systemPrompt) then [SystemPart(systemPrompt)] else []);
    var i := 0;
    while i < |messages|
      invariant 0 <= i <= |messages|
      invariant promptParts == head + MessageParts(messages[..i])
    {
      assert messages[..i + 1][..i] == messages[..i];
      var msg := messages[i];
      assert MessageParts(messages[..i + 1])
          == if msg.role == "user" || msg.role == "assistant" then MessageParts(messages[..i]) + [MessagePart(msg)]
             else MessageParts(messages[..i]);
      if msg.role == "user" {
        promptParts := promptParts + ["User: " + msg.content + "\n"];
      } else if msg.role == "assistant" {
        promptParts := promptParts + ["Assistant: " + msg.content + "\n"];
      }
      i := i + 1;
    }
    assert messages[..i] == messages;
    promptParts := promptParts + [AssistantCue];
    fullPrompt := Concat(promptParts);
  }

  /** `GeminiService.chat_completion`, with `generate` the model call. */
  method GeminiChatCompletion(messages: seq<ChatMessage>, systemPrompt: Option<string>,
                              generate: string -> Result<string, string>) returns (r: Result<string, string>)
    ensures r == generate(GeminiPrompt(messages, systemPrompt))
  {
    var fullPrompt := BuildGeminiPrompt(messages, systemPrompt);
    r := generate(fullPrompt);
  }

  lemma {:induction false} ConcatAppend(a: seq<string>, b: seq<string>)
    ensures Concat(a + b) == Concat(a) + Concat(b)
    decreases |a|
  {
    if a == [] {
      assert a + b == b;
    } else {
      assert (a + b)[1..] == a[1..] + b;
      ConcatAppend(a[1..], b);
    }
  }

  /** The prompt in three pieces: the system part, one line per `user` or
      `assistant` message, and the final cue. */
  lemma GeminiPromptPieces(messages: seq<ChatMessage>, systemPrompt: Option<string>)
    ensures GeminiPrompt(messages, systemPrompt)
         == SystemPart(systemPrompt) + Concat(MessageParts(messages)) + AssistantCue
  {
    var sys := if Truthy(systemPrompt) then [SystemPart(systemPrompt)] else [];
    ConcatAppend(sys + MessageParts(messages), [AssistantCue]);
    ConcatAppend(sys, MessageParts(messages));
    assert Concat([AssistantCue]) == AssistantCue;
    if Truthy(systemPrompt) {
      assert Concat(sys) == SystemPart(systemPrompt);
    }
  }

  /** A message with another role leaves the prompt as it is, wherever it
      stands. */
  lemma {:induction false} OtherRolesDropped(a: seq<ChatMessage>, m: ChatMessage, b: seq<ChatMessage>)
    requires m.role != "user" && m.role != "assistant"
    ensures MessageParts(a + [m] + b) == MessageParts(a + b)
    decreases |b|
  {
    if b == [] {
      assert a + [m] + b == a + [m];
      assert (a + [m])[..|a|] == a;
      assert a + b == a;
    } else {
      var init := b[..|b| - 1];
      OtherRolesDropped(a, m, init);
      assert (a + [m] + b)[..|a + [m] + b| - 1] == a + [m] + init;
      assert (a + b)[..|a + b| - 1] == a + init;
    }
  }

  /** A new `user` or `assistant` message adds its line just before the
      final cue: earlier lines keep their order. */
  lemma AppendedMessage(messages: seq<ChatMessage>, m: ChatMessage, systemPrompt: Option<string>)
    requires m.role == "user" || m.role == "assistant"
    ensures GeminiPrompt(messages + [m], systemPrompt)
         == SystemPart(systemPrompt) + Concat(MessageParts(messages)) + MessagePart(m) + AssistantCue
  {
    GeminiPromptPieces(messages + [m], systemPrompt);
    BodySnoc(messages, m);
    StringAssoc(SystemPart(systemPrompt), Concat(MessageParts(messages)), MessagePart(m), AssistantCue);
  }

  lemma StringAssoc(a: string, b: string, c: string, d: string)
    ensures a + (b + c) + d == a + b + c + d
  {
  }

  /** A `user` or `assistant` message adds its line to the body. */
  lemma BodySnoc(messages: seq<ChatMessage>, m: ChatMessage)
    requires m.role == "user" || m.role == "assistant"
    ensures Concat(MessageParts(messages + [m])) == Concat(MessageParts(messages)) + MessagePart(m)
  {
    assert (messages + [m])[..|messages|] == messages;
    assert MessageParts(messages + [m]) == MessageParts(messages) + [MessagePart(m)];
    ConcatSnoc(MessageParts(messages), MessagePart(m));
  }

  /** The prompt opens with "System: " exactly when a system prompt is
      given, and always ends with the cue "Assistant: ". */
  lemma GeminiPromptFrame(messages: seq<ChatMessage>, systemPrompt: Option<string>)
    ensures var p := GeminiPrompt(messages, systemPrompt);
      && (Truthy(systemPrompt) ==> StartsWith(p, SystemPart(systemPrompt)))
      && (StartsWith(p, "System: ") <==> Truthy(systemPrompt))
      && |p| >= |AssistantCue| && p[|p| - |AssistantCue|..] == AssistantCue
  {
    GeminiPromptPieces(messages, systemPrompt);
    var p := GeminiPrompt(messages, systemPrompt);
    var body := Concat(MessageParts(messages));
    if Truthy(systemPrompt) {
      assert p[..|SystemPart(systemPrompt)|] == SystemPart(systemPrompt);
      assert p[..8] == SystemPart(systemPrompt)[..8];
    } else {
      assert p == body + AssistantCue;
      FirstPartNotSystem(messages);
      if |body| >= 8 {
        assert p[..8] == body[..8];
      } else {
        assert p[|body|] == AssistantCue[0] == 'A';
      }
    }
  }

  /** No message part starts with "S", so a prompt without a system part
      never starts with "System: ". */
  lemma {:induction false} FirstPartNotSystem(messages: seq<ChatMessage>)
    ensures var body := Concat(MessageParts(messages));
      body == [] || (body[0] == 'U' || body[0] == 'A')
  {
    if messages != [] {
      var init := messages[..|messages| - 1];
      var m := messages[|messages| - 1];
      FirstPartNotSystem(init);
      if m.role == "user" || m.role == "assistant" {
        ConcatSnoc(MessageParts(init), MessagePart(m));
      }
    }
  }

  // ---------------------------------------------------------------------------
  // The factory

  datatype Provider = OpenAIProvider | GeminiProvider

  /** The settings `get_ai_service` reads; a key is empty when unset. */
  datatype AISettings = AISettings(aiProvider: string, openaiApiKey: string, geminiApiKey: string)

  /** `get_ai_service`: the provider named case-insensitively, provided its
      key is set. */
  function GetAIService(settings: AISettings): (r: Result<Provider, string>)
  {
    var provider := Lower(settings.aiProvider);
    if provider == "openai" then
      if settings.openaiApiKey == [] then Failure("OPENAI_API_KEY is not set") else Success(OpenAIProvider)
    else if provider == "gemini" then
      if settings.geminiApiKey == [] then Failure("GEMINI_API_KEY is not set") else Success(GeminiProvider)
    else Failure("Unknown AI provider: " + provider)
  }

  lemma {:induction false} LowerIdempotent(s: string)
    ensures Lower(Lower(s)) == Lower(s)
  {
  }

  /** Which service the factory returns and when it refuses; the name's
      case never matters. */
  lemma GetAIServiceRules(settings: AISettings)
    ensures var r := GetAIService(settings);
      var p := Lower(settings.aiProvider);
      && (r == Success(OpenAIProvider) <==> p == "openai" && settings.openaiApiKey != [])
      && (r == Success(GeminiProvider) <==> p == "gemini" && settings.geminiApiKey != [])
      && (p == "openai" && settings.openaiApiKey == [] ==> r == Failure("OPENAI_API_KEY is not set"))
      && (p == "gemini" && settings.geminiApiKey == [] ==> r == Failure("GEMINI_API_KEY is not set"))
      && (p != "openai" && p != "gemini" ==> r == Failure("Unknown AI provider: " + p))
      && r == GetAIService(settings.(aiProvider := p))
  {
    LowerIdempotent(settings.aiProvider);
  }
}
