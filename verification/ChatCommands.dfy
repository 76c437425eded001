/** Reading control commands out of chat messages. */
module ChatCommands {
  import opened Basics
  import opened Text

  datatype Command =
    | BindProject(path: string)
    | DirectProjectRoomPrompt(path: string)
    | DirectChatGuidance
    | DirectHelp
    | DirectNewSession(directPath: Option<string>, directPrompt: string)
    | DirectStatus
    | DirectUnbindProjectGuidance
    | Help
    | NewSession(newPath: Option<string>, prompt: string)
    | RoomGuidance
    | Status
    | UnbindProject(unbindPath: Option<string>)
    | Invalid
  {
    predicate RequiresRoomRoot() {
      BindProject? || DirectProjectRoomPrompt? || DirectNewSession? || NewSession?
      || DirectUnbindProjectGuidance? || UnbindProject?
    }

    predicate IsDirect() {
      DirectProjectRoomPrompt? || DirectChatGuidance? || DirectHelp? || DirectNewSession? || DirectStatus?
      || DirectUnbindProjectGuidance?
    }
  }

  // ---- the parser ----

  function FirstSpace(s: string): nat {
    SkipWord(s, 0)
  }

  /** The leading word of a text that starts with a slash, and what follows it. */
  function SplitCommand(text: string): Option<(string, string)> {
    var t := TrimStart(text);
    if t == "" || t[0] != '/' then None
    else Some((t[..FirstSpace(t)], t[FirstSpace(t)..]))
  }

  function ParseNewSession(rest: string): Command {
    var rest := Trim(rest);
    var split := FirstSpace(rest);
    if rest == "" then Invalid
    else if split == |rest| then NewSession(None, rest)
    else if rest[0] == '/' then
      var prompt := Trim(rest[split + 1..]);
      if prompt == "" then Invalid else NewSession(Some(rest[..split]), prompt)
    else NewSession(None, rest)
  }

  function ParseArgument(command: string, rest: string): Option<Command> {
    var argument := Trim(rest);
    if command == "/bind" then Some(if argument == "" then Invalid else BindProject(argument))
    else if command == "/help" then Some(if argument == "" then Help else Invalid)
    else if command == "/new" then Some(ParseNewSession(rest))
    else if command == "/status" then Some(if argument == "" then Status else Invalid)
    else if command == "/unbind" then Some(UnbindProject(if argument == "" then None else Some(argument)))
    else None
  }

  function Parse(text: string): Option<Command> {
    match SplitCommand(text)
    case None => None
    case Some((command, rest)) => ParseArgument(command, rest)
  }

  // ---- leading mentions ----

  function StripMentions(text: string): string
    decreases |text|
  {
    var t := TrimStart(text);
    if t == "" || t[0] != '@' then t
    else
      var split := FirstSpace(t[1..]);
      if split == |t| - 1 then t else StripMentions(t[1..][split + 1..])
  }

  method TrimLeadingMentions(text: string) returns (r: string)
    ensures r == StripMentions(text)
  {
    var rest := text;
    while true
      invariant StripMentions(rest) == StripMentions(text)
      decreases |rest|
    {
      var t := TrimStart(rest);
      if t == "" || t[0] != '@' {
        return t;
      }
      var split := FirstSpace(t[1..]);
      if split == |t| - 1 {
        return t;
      }
      rest := t[1..][split + 1..];
    }
  }

  // ---- the chat the message was sent in ----

  datatype SkipReason = EmptyMessage | NotAddressedToBot | NotControlCommand

  datatype Outcome = ControlCommand(command: Command) | Skipped(reason: SkipReason)

  /** A direct chat replaces every room command by its direct-chat form. */
  function ForDirectChat(c: Command): Command {
    match c
    case BindProject(path) => DirectProjectRoomPrompt(path)
    case Help => DirectHelp
    case Status => DirectStatus
    case NewSession(path, prompt) => DirectNewSession(path, prompt)
    case UnbindProject(None) => DirectUnbindProjectGuidance
    case UnbindProject(Some(_)) => Invalid
    case _ => c
  }

  function InContext(parsed: Option<Command>, direct: bool, hasRoot: bool, threadReply: bool): Outcome {
    if parsed.None? && threadReply then Skipped(NotControlCommand)
    else
      var command :=
        if parsed.Some? then parsed.value else if direct then DirectChatGuidance else RoomGuidance;
      ControlCommand(
        if hasRoot && command.RequiresRoomRoot() then Invalid
        else if direct then ForDirectChat(command)
        else command)
  }

  /** `addressed` says whether the message starts with a mention of the bot itself. */
  function Normalize(text: string, direct: bool, addressed: bool, messageId: string, rootId: Option<string>): Outcome {
    if Trim(text) == "" then Skipped(EmptyMessage)
    else if !direct && !addressed then Skipped(NotAddressedToBot)
    else
      var body := Trim(StripMentions(Trim(text)));
      ReadBody(body, direct, messageId, rootId)
  }

  function ReadBody(body: string, direct: bool, messageId: string, rootId: Option<string>): Outcome {
    if body == "" then Skipped(EmptyMessage)
    else InContext(Parse(body), direct, rootId.Some?, rootId.Some? && rootId.value != messageId)
  }

  // ---- what the parser guarantees ----

  /** The commands that can be typed: arguments are trimmed, a project path in `/new` is one word
      that starts with a slash, and a prompt that starts with a slash is one word. */
  predicate Typable(c: Command) {
    match c
    case BindProject(path) => PresentAndTrimmed(path)
    case UnbindProject(path) => path.Some? ==> PresentAndTrimmed(path.value)
    case Help => true
    case Status => true
    case NewSession(None, prompt) => PresentAndTrimmed(prompt) && (prompt[0] == '/' ==> SpaceFree(prompt))
    case NewSession(Some(path), prompt) => path != "" && path[0] == '/' && SpaceFree(path) && PresentAndTrimmed(prompt)
    case _ => false
  }

  function Word(c: Command): string
    requires Typable(c)
  {
    match c
    case BindProject(_) => "/bind"
    case UnbindProject(_) => "/unbind"
    case Help => "/help"
    case Status => "/status"
    case NewSession(_, _) => "/new"
  }

  function Argument(c: Command): string
    requires Typable(c)
  {
    match c
    case BindProject(path) => " " + path
    case UnbindProject(path) => if path.None? then "" else " " + path.value
    case Help => ""
    case Status => ""
    case NewSession(None, prompt) => " " + prompt
    case NewSession(Some(path), prompt) => " " + (path + " " + prompt)
  }

  /** The text that asks for a command. */
  function Render(c: Command): string
    requires Typable(c)
  {
    Word(c) + Argument(c)
  }

  lemma FirstSpaceEndsWord(word: string, rest: string)
    requires SpaceFree(word)
    requires rest == "" || IsSpace(rest[0])
    ensures FirstSpace(word + rest) == |word|
  {
    var s := word + rest;
    var i := FirstSpace(s);
    assert forall j :: 0 <= j < |word| ==> s[j] == word[j];
    if rest != "" {
      assert s[|word|] == rest[0];
    }
  }

  lemma TrimOfTrimmed(s: string)
    requires Trimmed(s)
    ensures Trim(s) == s && Trim(" " + s) == s
  {
    TrimFixpoint(s);
    assert (" " + s)[1..] == s;
  }

  lemma SplitWord(word: string, rest: string)
    requires word != "" && word[0] == '/' && SpaceFree(word)
    requires rest == "" || IsSpace(rest[0])
    ensures SplitCommand(word + rest) == Some((word, rest))
  {
    FirstSpaceEndsWord(word, rest);
    assert (word + rest)[0] == '/';
  }

  lemma ParseNewPrompt(prompt: string)
    requires Typable(NewSession(None, prompt))
    ensures ParseNewSession(" " + prompt) == NewSession(None, prompt)
  {
    TrimOfTrimmed(prompt);
    if prompt[0] == '/' {
      FirstSpaceEndsWord(prompt, "");
      assert prompt + "" == prompt;
    }
  }

  lemma ParseNewPath(path: string, prompt: string)
    requires Typable(NewSession(Some(path), prompt))
    ensures ParseNewSession(" " + (path + " " + prompt)) == NewSession(Some(path), prompt)
  {
    var argument := path + " " + prompt;
    TrimOfTrimmed(argument);
    FirstSpaceEndsWord(path, " " + prompt);
    assert argument == path + (" " + prompt);
    assert argument[|path| + 1..] == prompt && argument[..|path|] == path;
    TrimOfTrimmed(prompt);
  }

  lemma ParseArgumentOfTyped(c: Command)
    requires Typable(c)
    ensures ParseArgument(Word(c), Argument(c)) == Some(c)
  {
    match c
    case BindProject(path) => TrimOfTrimmed(path);
    case UnbindProject(Some(path)) => TrimOfTrimmed(path);
    case NewSession(None, prompt) => ParseNewPrompt(prompt);
    case NewSession(Some(path), prompt) => ParseNewPath(path, prompt);
    case _ => TrimOfTrimmed("");
  }

  lemma ParseRender(c: Command)
    requires Typable(c)
    ensures Parse(Render(c)) == Some(c)
  {
    SplitWord(Word(c), Argument(c));
    ParseArgumentOfTyped(c);
  }

  lemma TrimIsTrimmed(s: string)
    ensures Trimmed(Trim(s))
  {
    var t := TrimStart(s);
    var r := TrimEnd(t);
    if r != "" {
      assert r[0] == t[0];
    }
  }

  lemma NewSessionIsTypable(rest: string)
    ensures ParseNewSession(rest).Invalid? || Typable(ParseNewSession(rest))
  {
    var argument := Trim(rest);
    TrimIsTrimmed(rest);
    var split := FirstSpace(argument);
    if argument != "" && split < |argument| {
      TrimIsTrimmed(argument[split + 1..]);
      assert SpaceFree(argument[..split]);
    }
  }

  lemma ArgumentIsTypable(command: string, rest: string)
    ensures var c := ParseArgument(command, rest);
      c.Some? ==> c.value.Invalid? || Typable(c.value)
  {
    TrimIsTrimmed(rest);
    NewSessionIsTypable(rest);
  }

  /** Only typable commands and `Invalid` are ever parsed. */
  lemma ParseGivesTypable(text: string)
    ensures Parse(text).Some? ==> Parse(text).value.Invalid? || Typable(Parse(text).value)
  {
    var split := SplitCommand(text);
    if split.Some? {
      ArgumentIsTypable(split.value.0, split.value.1);
    }
  }

  // ---- what mention stripping guarantees ----

  predicate Mention(m: string) {
    |m| >= 2 && m[0] == '@' && SpaceFree(m[1..|m| - 1]) && IsSpace(m[|m| - 1])
  }

  function Concat(parts: seq<string>): string {
    if parts == [] then "" else parts[0] + Concat(parts[1..])
  }

  lemma MentionIsStripped(m: string, rest: string)
    requires Mention(m)
    ensures StripMentions(m + rest) == StripMentions(rest)
  {
    var text, token, tail := m + rest, m[1..|m| - 1], [m[|m| - 1]] + rest;
    assert text[1..] == token + tail;
    FirstSpaceEndsWord(token, tail);
    assert text[1..][|token| + 1..] == rest;
  }

  lemma {:induction false} MentionsAreStripped(mentions: seq<string>, body: string)
    requires forall m :: m in mentions ==> Mention(m)
    ensures StripMentions(Concat(mentions) + body) == StripMentions(body)
  {
    if mentions == [] {
      assert Concat(mentions) + body == body;
    } else {
      assert Concat(mentions) + body == mentions[0] + (Concat(mentions[1..]) + body);
      MentionIsStripped(mentions[0], Concat(mentions[1..]) + body);
      MentionsAreStripped(mentions[1..], body);
    }
  }

  lemma {:induction false} StripMentionsResult(text: string)
    ensures var r := StripMentions(text);
      r == "" || (!IsSpace(r[0]) && (r[0] == '@' ==> SpaceFree(r[1..])))
    decreases |text|
  {
    var t := TrimStart(text);
    if t != "" && t[0] == '@' {
      var split := FirstSpace(t[1..]);
      if split < |t| - 1 {
        StripMentionsResult(t[1..][split + 1..]);
      }
    }
  }

  /** Stripping once is enough. */
  lemma StripMentionsIdempotent(text: string)
    ensures StripMentions(StripMentions(text)) == StripMentions(text)
  {
    var r := StripMentions(text);
    StripMentionsResult(text);
    if r != "" && r[0] == '@' {
      FirstSpaceEndsWord(r[1..], "");
      assert r[1..] + "" == r[1..];
    }
  }

  lemma BodyIsDelivered(body: string, mentions: seq<string>)
    requires PresentAndTrimmed(body) && body[0] == '/'
    requires forall m :: m in mentions ==> Mention(m)
    ensures Trim(Concat(mentions) + body) == Concat(mentions) + body
    ensures Trim(StripMentions(Concat(mentions) + body)) == body
  {
    var text := Concat(mentions) + body;
    assert text[|text| - 1] == body[|body| - 1];
    if mentions == [] {
      assert text == body;
    } else {
      assert mentions[0] in mentions;
      assert text[0] == mentions[0][0];
    }
    TrimOfTrimmed(text);
    MentionsAreStripped(mentions, body);
    TrimOfTrimmed(body);
  }

  /** Round trip: any typable command, behind any number of mentions, is read back unchanged. */
  lemma CommandRoundTrip(c: Command, mentions: seq<string>)
    requires Typable(c)
    requires forall m :: m in mentions ==> Mention(m)
    ensures Parse(Trim(StripMentions(Trim(Concat(mentions) + Render(c))))) == Some(c)
  {
    BodyIsDelivered(Render(c), mentions);
    ParseRender(c);
  }

  // ---- what the chat context guarantees ----

  lemma ContextOfParsed(parsed: Option<Command>, direct: bool, hasRoot: bool, threadReply: bool)
    requires parsed.Some? ==> parsed.value.Invalid? || Typable(parsed.value)
    ensures var o := InContext(parsed, direct, hasRoot, threadReply);
      o.ControlCommand? ==>
        && (direct ==> o.command.IsDirect() || o.command.Invalid?)
        && (!direct ==> !o.command.IsDirect())
        && (hasRoot ==> !o.command.RequiresRoomRoot())
  {
  }

  /** A direct chat gives only direct-chat commands, a room never does, and inside a thread no
      command is given that belongs to the room itself. */
  lemma ContextIsRespected(text: string, direct: bool, addressed: bool, messageId: string, rootId: Option<string>)
    ensures var o := Normalize(text, direct, addressed, messageId, rootId);
      o.ControlCommand? ==>
        && (direct ==> o.command.IsDirect() || o.command.Invalid?)
        && (!direct ==> !o.command.IsDirect() && addressed)
        && (rootId.Some? ==> !o.command.RequiresRoomRoot())
  {
    var body := Trim(StripMentions(Trim(text)));
    ParseGivesTypable(body);
    ContextOfParsed(Parse(body), direct, rootId.Some?, rootId.Some? && rootId.value != messageId);
  }

  lemma BodyArrives(text: string, body: string, messageId: string)
    requires text != "" && Trim(text) == text && Trim(StripMentions(text)) == body
    ensures Normalize(text, false, true, messageId, None) == ReadBody(body, false, messageId, None)
  {
  }

  lemma TypableReads(c: Command, messageId: string)
    requires Typable(c)
    ensures ReadBody(Render(c), false, messageId, None) == ControlCommand(c)
  {
    ParseRender(c);
    assert InContext(Some(c), false, false, false) == ControlCommand(c);
  }

  /** A typable command sent to the room itself, behind mentions, is exactly what the room is
      asked to do. */
  lemma RoomCommandArrives(c: Command, mentions: seq<string>, messageId: string)
    requires Typable(c)
    requires forall m :: m in mentions ==> Mention(m)
    ensures Normalize(Concat(mentions) + Render(c), false, true, messageId, None) == ControlCommand(c)
  {
    var body := Render(c);
    BodyIsDelivered(body, mentions);
    BodyArrives(Concat(mentions) + body, body, messageId);
    TypableReads(c, messageId);
  }
}
