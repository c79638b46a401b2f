/**
 * The client of the hosted language-model service (lib/openAi.ts): embedding
 * generation with a bounded retry loop, chat completion with a check of the
 * response's shape, and the two-message request that asks for an answer.
 *
 * The service itself is abstract: `GenerateVector` reads the outcome of its
 * n-th attempt from a function `service`, and the chat functions read the
 * response to a request from a function `complete`.
 */
module OpenAi {
  import opened Wrappers

  /** One record: a question, its answer (null until one is known) and its embedding. */
  datatype EmbeddingData = EmbeddingData(text: string, answer: Option<string>, vector: seq<int>)

  /** The number of embedding attempts before `GenerateVector` gives up. */
  const MAX_RETRY: nat := 10000

  const EMBEDDING_MODEL := "text-embedding-ada-002"
  const CHAT_MODEL := "gpt-3.5-turbo"

  const API_KEY_NOT_SET := "API key is not set."
  const MAX_RETRY_EXCEEDED := "MAX_RETRY times exceeded."

  /** The body of one `createEmbedding` call. */
  datatype EmbeddingRequest = EmbeddingRequest(input: string, model: string)

  /**
   * What one `createEmbedding` call produced: it threw, it answered without
   * `data`, or it answered with the list `data.data` of embeddings.
   */
  datatype EmbeddingAttempt = Threw | NoData | Data(embeddings: seq<seq<int>>)

  /**
   * An attempt ends the loop only when it has data whose first entry exists;
   * reading `data[0].embedding` of an empty list throws a TypeError, which
   * the loop catches like any other failure.
   */
  predicate Succeeded(attempt: EmbeddingAttempt)
  {
    attempt.Data? && |attempt.embeddings| > 0
  }

  /**
   * generateVector: fails at once when the key is null or empty; otherwise
   * asks for the embedding of `text` up to MAX_RETRY times, returns on the
   * first success with the text unchanged and a null answer, and fails when
   * every attempt failed. `requests` is the sequence of calls made, in order.
   */
  method GenerateVector(text: string, apiKey: Option<string>, service: nat -> EmbeddingAttempt)
    returns (r: Result<EmbeddingData, string>, requests: seq<EmbeddingRequest>)
    ensures apiKey.None? || apiKey.value == [] ==> r == Failure(API_KEY_NOT_SET) && requests == []
    ensures apiKey.Some? && apiKey.value != [] ==>
      && 1 <= |requests| <= MAX_RETRY
      && (forall j :: 0 <= j < |requests| ==> requests[j] == EmbeddingRequest(text, EMBEDDING_MODEL))
      && (forall j :: 0 <= j < |requests| - 1 ==> !Succeeded(service(j)))
      && (r.Success? <==> Succeeded(service(|requests| - 1)))
      && (r.Success? ==> r.value == EmbeddingData(text, None, service(|requests| - 1).embeddings[0]))
      && (r.Failure? ==> r == Failure(MAX_RETRY_EXCEEDED) && |requests| == MAX_RETRY)
  {
    if apiKey.None? || apiKey.value == [] {
      return Failure(API_KEY_NOT_SET), [];
    }
    var request := EmbeddingRequest(text, EMBEDDING_MODEL);
    requests := [];
    for retryCount := 0 to MAX_RETRY
      invariant |requests| == retryCount
      invariant forall j :: 0 <= j < retryCount ==> requests[j] == request && !Succeeded(service(j))
    {
      requests := requests + [request];
      var response := service(retryCount);
      if response.Data? && |response.embeddings| > 0 {
        return Success(EmbeddingData(text, None, response.embeddings[0])), requests;
      }
      // a throw, a missing `data` or an empty `data.data`: caught, try again
    }
    return Failure(MAX_RETRY_EXCEEDED), requests;
  }

  datatype Role = System | User
  datatype ChatMessage = ChatMessage(role: Role, content: string)
  datatype ChatRequest = ChatRequest(model: string, messages: seq<ChatMessage>)

  /** `choices[i].message`: missing (undefined), null, or a message with content. */
  datatype MessageField = Undefined | Null | Message(content: string)
  datatype Choice = Choice(message: MessageField)

  /**
   * What `createChatCompletion` produced: it threw, or it answered with a
   * `choices` field that is missing/null or a list.
   */
  datatype ChatResponse = ChatThrew | ChatData(choices: Option<seq<Choice>>)

  /**
   * Why `generateText` threw: the request failed, the response had no usable
   * first choice, or the first choice's message was undefined (which passes
   * the `!== null` test and then throws a TypeError when its content is read).
   */
  datatype ChatError = RequestFailed | NoGeneratedText | MessageUndefined

  /** True when the response passes generateText's shape test. */
  predicate HasFirstChoice(response: ChatResponse)
  {
    && response.ChatData?
    && response.choices.Some?
    && |response.choices.value| > 0
    && !response.choices.value[0].message.Null?
  }

  /**
   * generateText: sends `messages` to the chat model and returns the content
   * of the first choice's message; it fails unless `choices` is a non-empty
   * list whose first message is present.
   */
  function GenerateText(messages: seq<ChatMessage>, complete: ChatRequest -> ChatResponse): (r: Result<string, ChatError>)
    ensures var response := complete(ChatRequest(CHAT_MODEL, messages));
      && (r.Success? <==> HasFirstChoice(response) && response.choices.value[0].message.Message?)
      && (r.Success? ==> r.value == response.choices.value[0].message.content)
      && (response.ChatThrew? ==> r == Failure(RequestFailed))
      && (response.ChatData? && !HasFirstChoice(response) ==> r == Failure(NoGeneratedText))
  {
    var response := complete(ChatRequest(CHAT_MODEL, messages));
    if !HasFirstChoice(response) then
      if response.ChatThrew? then Failure(RequestFailed) else Failure(NoGeneratedText)
    else
      match response.choices.value[0].message
      case Message(content) => Success(content)
      case _ => Failure(MessageUndefined)
  }

  /** The fixed system instruction of generateAnswer, continuation-line indentation included. */
  const ANSWER_INSTRUCTION: string :=
    "Please summarize the following text and answer the user's question in the author's tone. "
    + "        If there's no relevant information in the text, respond with "
    + "        \"There is no applicable information. I cannot answer your question.\" "
    + "        Keep your answers in English, within 50 words, and always respond in the language used by the user."

  /**
   * The two messages generateAnswer sends: the fixed instruction from the
   * system, then the user's text unchanged.
   */
  function AnswerMessages(message: string): (ms: seq<ChatMessage>)
    ensures |ms| == 2
    ensures ms[0] == ChatMessage(System, ANSWER_INSTRUCTION)
    ensures ms[1] == ChatMessage(User, message)
  {
    [ChatMessage(System, ANSWER_INSTRUCTION), ChatMessage(User, message)]
  }

  /**
   * generateAnswer: asks the chat model, under the fixed instruction, to
   * answer `message`; the request holds exactly the instruction and then the
   * user's text, and the answer is whatever generateText returns for it.
   */
  function GenerateAnswer(message: string, complete: ChatRequest -> ChatResponse): (r: Result<string, ChatError>)
    ensures var request := ChatRequest(CHAT_MODEL, AnswerMessages(message));
      && |request.messages| == 2
      && request.messages[0] == ChatMessage(System, ANSWER_INSTRUCTION)
      && request.messages[1] == ChatMessage(User, message)
      && (r.Success? <==> HasFirstChoice(complete(request)) && complete(request).choices.value[0].message.Message?)
      && (r.Success? ==> r.value == complete(request).choices.value[0].message.content)
  {
    GenerateText(AnswerMessages(message), complete)
  }
}
