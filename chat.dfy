/** The chat screen of the application: the static tool catalog handed to the
    language model, the dispatcher that turns a model-emitted function call
    into a display string, and one conversation turn (`sendMessage`). */
module Chat {
  import opened Outcomes
  import opened JsText

  // ---------------------------------------------------------------------
  // Tool catalog
  // ---------------------------------------------------------------------

  /** One entry of a tool's `parameters.properties`. */
  datatype Property = Property(name: string, kind: string, description: string)

  /** A tool as declared for the model: `type: 'function'`, a name, a
      description and an object schema (`properties` and `required`). */
  datatype Tool = Tool(
    kind: string,
    name: string,
    description: string,
    schemaKind: string,
    properties: seq<Property>,
    required: seq<string>)

  const GetWeather: string := "get_weather"
  const SendEmail: string := "send_email"

  /** The two tools offered to the model, in declaration order. */
  const Tools: seq<Tool> := [
    Tool("function", GetWeather, "Get current weather for a location", "object",
      [Property("location", "string", "City name")],
      ["location"]),
    Tool("function", SendEmail, "Send an email to someone", "object",
      [Property("email", "string", "Email address"),
       Property("subject", "string", "Email subject"),
       Property("message", "string", "Email message")],
      ["email", "subject", "message"])
  ]

  predicate NamesUnique(tools: seq<Tool>) {
    forall i, j :: 0 <= i < j < |tools| ==> tools[i].name != tools[j].name
  }

  predicate PropertyNamesUnique(t: Tool) {
    forall i, j :: 0 <= i < j < |t.properties| ==> t.properties[i].name != t.properties[j].name
  }

  /** Every name listed in `required` is one of the tool's properties. */
  predicate RequiredDeclared(t: Tool) {
    forall r :: r in t.required ==> exists k :: 0 <= k < |t.properties| && t.properties[k].name == r
  }

  predicate IsToolName(name: string) {
    exists i :: 0 <= i < |Tools| && Tools[i].name == name
  }

  /** The catalog is well formed: tool names are unique, property names are
      unique within a tool, and every required parameter is declared. */
  lemma CatalogWellFormed()
    ensures NamesUnique(Tools)
    ensures forall i :: 0 <= i < |Tools| ==> PropertyNamesUnique(Tools[i]) && RequiredDeclared(Tools[i])
  {
    assert GetWeather[0] != SendEmail[0];
    var w, e := Tools[0], Tools[1];
    assert w.properties[0].name == "location";
    assert e.properties[0].name == "email" && e.properties[1].name == "subject" && e.properties[2].name == "message";
    assert "email"[0] != "subject"[0] && "email"[0] != "message"[0] && "subject"[0] != "message"[0];
  }

  // ---------------------------------------------------------------------
  // Dispatch
  // ---------------------------------------------------------------------

  /** A value in the model's loosely typed argument record.  A string is
      interpolated as itself; any other value is interpolated as whatever
      JavaScript's `String(value)` gives, which the model keeps abstract. */
  datatype ArgValue = Text(s: string) | NonText(shown: string)

  type Args = map<string, ArgValue>

  /** `${args[key]}` in a template literal: a missing key reads as
      `undefined`, and the `as string` cast converts nothing. */
  function Interpolate(args: Args, key: string): (r: string)
    ensures key !in args ==> r == "undefined"
    ensures key in args && args[key].Text? ==> r == args[key].s
    ensures key in args && args[key].NonText? ==> r == args[key].shown
  {
    if key !in args then "undefined"
    else match args[key]
      case Text(s) => s
      case NonText(shown) => shown
  }

  const UnknownPrefix: string := "Unknown function: "

  /** `handleFunctionCall`: a total mapping from a tool name and its
      arguments to the string shown to the user.  No argument is checked. */
  function HandleFunctionCall(name: string, args: Args): string
  {
    if name == GetWeather then
      "Weather in " + Interpolate(args, "location") + ": Sunny, 72\U{00B0}F"
    else if name == SendEmail then
      "Email sent to " + Interpolate(args, "email") + " with subject \"" + Interpolate(args, "subject") + "\""
    else
      UnknownPrefix + name
  }

  predicate IsUnknownResult(s: string) {
    |UnknownPrefix| <= |s| && s[..|UnknownPrefix|] == UnknownPrefix
  }

  /** The weather reply names the location argument and nothing else. */
  lemma WeatherReply(args: Args)
    ensures HandleFunctionCall(GetWeather, args) == "Weather in " + Interpolate(args, "location") + ": Sunny, 72\U{00B0}F"
    ensures forall other: Args :: Interpolate(other, "location") == Interpolate(args, "location") ==>
      HandleFunctionCall(GetWeather, other) == HandleFunctionCall(GetWeather, args)
  {
  }

  /** The e-mail reply depends on `email` and `subject` only: `message` is
      read but never shown. */
  lemma SendEmailIgnoresMessage(args: Args, text: ArgValue)
    ensures HandleFunctionCall(SendEmail, args["message" := text]) == HandleFunctionCall(SendEmail, args)
    ensures HandleFunctionCall(SendEmail, args) ==
      "Email sent to " + Interpolate(args, "email") + " with subject \"" + Interpolate(args, "subject") + "\""
  {
    var a := args["message" := text];
    assert Interpolate(a, "email") == Interpolate(args, "email");
    assert Interpolate(a, "subject") == Interpolate(args, "subject");
  }

  /** The dispatcher answers with the unknown-function text exactly for the
      names the catalog does not declare, and then it echoes the name. */
  lemma UnknownExactlyOutsideCatalog(name: string, args: Args)
    ensures IsUnknownResult(HandleFunctionCall(name, args)) <==> !IsToolName(name)
    ensures !IsToolName(name) ==> HandleFunctionCall(name, args) == UnknownPrefix + name
  {
    var r := HandleFunctionCall(name, args);
    if name == GetWeather {
      assert Tools[0].name == name;
      assert r[0] == 'W' && UnknownPrefix[0] == 'U';
    } else if name == SendEmail {
      assert Tools[1].name == name;
      assert r[0] == 'E' && UnknownPrefix[0] == 'U';
    } else {
      assert r[..|UnknownPrefix|] == UnknownPrefix;
      assert !IsToolName(name) by {
        assert Tools[0].name == GetWeather && Tools[1].name == SendEmail;
      }
    }
  }

  /** Required arguments are not validated: a call with no arguments at all
      still reaches the handler and interpolates `undefined`. */
  lemma MissingArgumentsNotRejected()
    ensures HandleFunctionCall(GetWeather, map[]) == "Weather in " + "undefined" + ": Sunny, 72\U{00B0}F"
    ensures HandleFunctionCall(SendEmail, map[]) == "Email sent to " + "undefined" + " with subject \"" + "undefined" + "\""
  {
    var none: Args := map[];
    assert Interpolate(none, "location") == "undefined";
    assert Interpolate(none, "email") == "undefined" && Interpolate(none, "subject") == "undefined";
  }

  // ---------------------------------------------------------------------
  // One conversation turn
  // ---------------------------------------------------------------------

  datatype Role = System | User | Assistant

  datatype Message = Message(role: Role, content: string)

  datatype FunctionCall = FunctionCall(name: string, arguments: Args)

  /** What the completer resolves to: the plain response and, possibly
      absent, the function calls the model emitted. */
  datatype Completion = Completion(response: string, functionCalls: Option<seq<FunctionCall>>)

  /** The external completer: `Failure` when `complete` rejects. */
  type Completer = (seq<Message>, seq<Tool>) -> Result<Completion, string>

  const Indent: string := "                        "

  /** The system message put in front of every request. */
  const SystemPrompt: string :=
    "\n" +
    Indent + "Use tools when needed: \n" +
    Indent + "You have access to the following tools:\n" +
    Indent + "\n" +
    Indent + "1. get_weather: Get current weather for a location\n" +
    Indent + "   - Parameters: location (city name)\n" +
    Indent + "   - Example: \"What's the weather in San Francisco?\"\n" +
    Indent + "\n" +
    Indent + "2. send_email: Send an email to someone\n" +
    Indent + "   - Parameters: email (email address), subject (email subject), message (email message)\n" +
    Indent + "   - Example: \"Send an email to john@example.com with subject 'Meeting' and message 'Let's meet tomorrow'\"\n" +
    Indent

  /** The messages handed to the completer for a turn. */
  function Prompt(history: seq<Message>, input: string): (p: seq<Message>)
    ensures |p| == |history| + 2
    ensures p[0] == Message(System, SystemPrompt) && p[1..|p| - 1] == history
    ensures p[|p| - 1] == Message(User, input)
  {
    [Message(System, SystemPrompt)] + history + [Message(User, input)]
  }

  function CallReply(call: FunctionCall): Message {
    Message(Assistant, HandleFunctionCall(call.name, call.arguments))
  }

  /** The assistant messages appended for `calls`, one per call, in the
      order the loop appends them. */
  function CallReplies(calls: seq<FunctionCall>): seq<Message>
  {
    if calls == [] then [] else CallReplies(calls[..|calls| - 1]) + [CallReply(calls[|calls| - 1])]
  }

  lemma {:induction false} CallRepliesAt(calls: seq<FunctionCall>)
    ensures |CallReplies(calls)| == |calls|
    ensures forall i :: 0 <= i < |calls| ==>
      CallReplies(calls)[i] == Message(Assistant, HandleFunctionCall(calls[i].name, calls[i].arguments))
  {
    if calls != [] {
      var front := calls[..|calls| - 1];
      CallRepliesAt(front);
      forall i | 0 <= i < |front| ensures front[i] == calls[i] { }
    }
  }

  predicate HasCalls(c: Completion) {
    c.functionCalls.Some? && |c.functionCalls.value| > 0
  }

  /** What one completion adds to the history: a message per function call
      when there are any, the plain response otherwise. */
  function Replies(c: Completion): seq<Message>
  {
    if HasCalls(c) then CallReplies(c.functionCalls.value) else [Message(Assistant, c.response)]
  }

  /** Called functions replace the plain response: with calls, one assistant
      message per call in emission order and no response; without, exactly
      the response. */
  lemma RepliesShape(c: Completion)
    ensures HasCalls(c) ==>
      && |Replies(c)| == |c.functionCalls.value|
      && forall i :: 0 <= i < |Replies(c)| ==>
           Replies(c)[i] == Message(Assistant, HandleFunctionCall(c.functionCalls.value[i].name, c.functionCalls.value[i].arguments))
    ensures !HasCalls(c) ==> Replies(c) == [Message(Assistant, c.response)]
    ensures forall i :: 0 <= i < |Replies(c)| ==> Replies(c)[i].role == Assistant
  {
    if HasCalls(c) {
      CallRepliesAt(c.functionCalls.value);
    }
  }

  /** What the whole turn appends after the user message. */
  function Outcome(r: Result<Completion, string>): seq<Message> {
    match r
    case Success(c) => Replies(c)
    case Failure(_) => []
  }

  /** The chat screen's state: the message list and the text field. */
  class Conversation {
    var messages: seq<Message>
    var input: string

    constructor ()
      ensures messages == [] && input == ""
    {
      messages := [];
      input := "";
    }

    /** The text field's `onChangeText`. */
    method SetInput(text: string)
      modifies this
      ensures input == text && messages == old(messages)
    {
      input := text;
    }

    /** `sendMessage`.  `prompt` is what the completer was called with, or
        `None` when it was not called. */
    method SendMessage(complete: Completer) returns (prompt: Option<seq<Message>>)
      modifies this
      ensures Trim(old(input)) == [] ==>
        prompt == None && messages == old(messages) && input == old(input)
      ensures Trim(old(input)) != [] ==>
        && prompt == Some(Prompt(old(messages), old(input)))
        && input == ""
        && messages == old(messages) + [Message(User, old(input))] + Outcome(complete(prompt.value, Tools))
    {
      if Trim(input) == [] {
        return None;
      }
      var text := input;
      var history := messages;
      messages := messages + [Message(User, text)];
      input := "";
      var request := Prompt(history, text);
      prompt := Some(request);
      var reply := complete(request, Tools);
      if reply.Failure? {
        return;
      }
      AppendReplies(reply.value);
    }

    /** The tail of `sendMessage` once the completer has answered. */
    method AppendReplies(message: Completion)
      modifies this
      ensures messages == old(messages) + Replies(message) && input == old(input)
    {
      if HasCalls(message) {
        var calls := message.functionCalls.value;
        var i := 0;
        while i < |calls|
          invariant 0 <= i <= |calls| && input == old(input)
          invariant messages == old(messages) + CallReplies(calls[..i])
        {
          var result := HandleFunctionCall(calls[i].name, calls[i].arguments);
          messages := messages + [Message(Assistant, result)];
          assert calls[..i + 1][..i] == calls[..i];
          i := i + 1;
        }
        assert calls[..i] == calls;
      } else {
        messages := messages + [Message(Assistant, message.response)];
      }
    }
  }

  /** Two turns in a row, the second with blank input: the second changes
      nothing, and a failing completer keeps only the user message. */
  method TurnScenario(c: Conversation, complete: Completer)
    modifies c
  {
    c.messages := [];
    c.SetInput("hi");
    var p := c.SendMessage(complete);
    assert Trim("hi") != [] by { TrimEmptyIff("hi"); assert !IsWhitespace("hi"[0]); }
    assert p == Some(Prompt([], "hi"));
    assert c.messages[..1] == [Message(User, "hi")];
    if complete(Prompt([], "hi"), Tools).Failure? {
      assert c.messages == [Message(User, "hi")];
    }
    var before := c.messages;
    p := c.SendMessage(complete);
    assert p == None && c.messages == before;
  }
}
