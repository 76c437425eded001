/** What a chat message is read as, told by its words. */
module ChatAnswers {
  import opened Basics
  import opened Text
  import opened SignalPreview
  import opened ChatCommands

  // ---- words ----

  lemma WordThenRest(word: string, rest: string)
    requires word != "" && SpaceFree(word) && (rest == "" || IsSpace(rest[0]))
    ensures Words(word + rest) == [word] + Words(rest)
  {
    ReadWord(word, rest, "");
    assert "" + word == word;
  }

  lemma SpaceBefore(s: string)
    ensures Words(" " + s) == Words(s)
  {
    SpaceHasNoWords(" ", s);
  }

  lemma SplitIsWords(text: string)
    ensures match SplitCommand(text)
      case None => Words(text) == [] || (Words(text)[0] != "" && Words(text)[0][0] != '/')
      case Some((word, rest)) => Words(text) == [word] + Words(rest) && word != "" && word[0] == '/'
  {
    var i := SkipSpaces(text, 0);
    var t := TrimStart(text);
    assert text[..i] + t == text;
    SpaceHasNoWords(text[..i], t);
    if t == "" {
      assert Words("") == [];
    } else {
      var f := FirstSpace(t);
      assert t[..f] + t[f..] == t;
      assert f > 0 && t[..f][0] == t[0];
      WordThenRest(t[..f], t[f..]);
    }
  }

  // ---- which command a text is ----

  predicate IsCommandWord(word: string) {
    word in {"/bind", "/help", "/new", "/status", "/unbind"}
  }

  /** A text is a command exactly if its first word is one of the five; it is then invalid exactly if the
      word stands alone and needs an argument, or does not stand alone and takes none. */
  lemma CommandIffFirstWord(text: string)
    ensures var words := Words(text);
      && (Parse(text).Some? <==> words != [] && IsCommandWord(words[0]))
      && (Parse(text) == Some(Invalid) <==>
            && words != []
            && ((words[0] in {"/bind", "/new"} && |words| == 1) || (words[0] in {"/help", "/status"} && |words| > 1)))
  {
    SplitIsWords(text);
    match SplitCommand(text)
    case None =>
    case Some((word, rest)) =>
      BlankIffNoWords(rest);
      NewIsInvalidIffBlank(rest);
  }

  lemma BlankIffNoWords(s: string)
    ensures Trim(s) == "" <==> Words(s) == []
  {
    TrimKeepsWords(s);
    var _, _ := TrimIsInside(s);
    NoWordsIffBlank(Trim(s), "");
    if Trim(s) != "" {
      assert !IsSpace(Trim(s)[0]);
    }
  }

  lemma NewIsInvalidIffBlank(rest: string)
    ensures ParseNewSession(rest).Invalid? <==> Trim(rest) == ""
  {
    var r := Trim(rest);
    var _, _ := TrimIsInside(rest);
    var split := FirstSpace(r);
    if r != "" && split < |r| && r[0] == '/' {
      var tail := r[split + 1..];
      BlankIffNoWords(tail);
      NoWordsIffBlank(tail, "");
      assert !IsSpace(r[|r| - 1]);
      assert tail[|tail| - 1] == r[|r| - 1];
    }
  }

  lemma ArgumentKeepsWords(word: string, rest: string, c: Command)
    requires ParseArgument(word, rest) == Some(c) && !c.Invalid?
    ensures Typable(c) && Word(c) == word && Words(Argument(c)) == Words(rest)
  {
    ArgumentIsTypable(word, rest);
    TrimKeepsWords(rest);
    BlankIffNoWords(rest);
    SpaceBefore(Trim(rest));
    if word == "/new" {
      NewKeepsWords(rest);
    }
  }

  /** The two ways in which an argument of `/new` is taken apart. */
  lemma NewIsPromptOrPath(rest: string) returns (path: string, gap: char, tail: string)
    requires !ParseNewSession(rest).Invalid?
    ensures ParseNewSession(rest) == NewSession(None, Trim(rest))
      || (&& Trim(rest) == path + [gap] + tail && path != "" && SpaceFree(path) && IsSpace(gap)
          && ParseNewSession(rest) == NewSession(Some(path), Trim(tail)))
  {
    path, gap, tail := "", ' ', "";
    var split := FirstSpace(Trim(rest));
    if split < |Trim(rest)| && Trim(rest)[0] == '/' {
      path, gap, tail := NewIsPath(rest, Trim(rest), split);
    }
  }

  lemma NewIsPath(rest: string, r: string, split: nat) returns (path: string, gap: char, tail: string)
    requires r == Trim(rest) && split == FirstSpace(r) && split < |r| && r[0] == '/'
    requires !ParseNewSession(rest).Invalid?
    ensures r == path + [gap] + tail && path != "" && SpaceFree(path) && IsSpace(gap)
    ensures ParseNewSession(rest) == NewSession(Some(path), Trim(tail))
  {
    path, gap, tail := r[..split], r[split], r[split + 1..];
    assert split != 0;
  }

  lemma NewKeepsWords(rest: string)
    ensures var c := ParseNewSession(rest);
      !c.Invalid? ==> c.NewSession? && Typable(c) && Words(Argument(c)) == Words(rest)
  {
    var c := ParseNewSession(rest);
    NewSessionIsTypable(rest);
    TrimKeepsWords(rest);
    if !c.Invalid? {
      var path, gap, tail := NewIsPromptOrPath(rest);
      if c.newPath.None? {
        SpaceBefore(Trim(rest));
      } else {
        PathThenPrompt(path, gap, tail);
      }
    }
  }

  lemma PathThenPrompt(path: string, gap: char, tail: string)
    requires path != "" && SpaceFree(path) && IsSpace(gap)
    ensures Words(path + [gap] + tail) == [path] + Words(tail)
    ensures Words(" " + (path + " " + Trim(tail))) == [path] + Words(tail)
  {
    var prompt := Trim(tail);
    assert path + [gap] + tail == path + ([gap] + tail);
    WordThenRest(path, [gap] + tail);
    SpaceHasNoWords([gap], tail);
    assert path + " " + prompt == path + (" " + prompt);
    WordThenRest(path, " " + prompt);
    TrimKeepsWords(tail);
    SpaceBefore(prompt);
    SpaceBefore(path + " " + prompt);
  }

  /** What was understood says what was written: the text of the command has the words of the message. */
  lemma ParsedKeepsWords(text: string, c: Command)
    requires Parse(text) == Some(c) && !c.Invalid?
    ensures Typable(c) && Words(Render(c)) == Words(text)
  {
    SplitIsWords(text);
    var (word, rest) := SplitCommand(text).value;
    ArgumentKeepsWords(word, rest, c);
    WordThenRest(Word(c), Argument(c));
  }

  // ---- the form a command takes in each kind of chat ----

  /** The form of a command in a direct chat. */
  function DirectForm(c: Command): Command
    requires Typable(c)
  {
    match c
    case BindProject(path) => DirectProjectRoomPrompt(path)
    case Help => DirectHelp
    case Status => DirectStatus
    case NewSession(path, prompt) => DirectNewSession(path, prompt)
    case UnbindProject(path) => if path.None? then DirectUnbindProjectGuidance else Invalid
  }

  lemma MessageArrives(mentions: seq<string>, body: string, direct: bool, addressed: bool, messageId: string,
                       rootId: Option<string>)
    requires PresentAndTrimmed(body) && body[0] == '/' && (direct || addressed)
    requires forall m :: m in mentions ==> Mention(m)
    ensures Normalize(Concat(mentions) + body, direct, addressed, messageId, rootId)
      == ReadBody(body, direct, messageId, rootId)
  {
    BodyIsDelivered(body, mentions);
    BodyIsRead(Concat(mentions) + body, body, direct, addressed, messageId, rootId);
  }

  lemma BodyIsRead(text: string, body: string, direct: bool, addressed: bool, messageId: string, rootId: Option<string>)
    requires text != "" && Trim(text) == text && Trim(StripMentions(text)) == body && (direct || addressed)
    ensures Normalize(text, direct, addressed, messageId, rootId) == ReadBody(body, direct, messageId, rootId)
  {
  }

  lemma CommandIsRead(c: Command, direct: bool, messageId: string, rootId: Option<string>)
    requires Typable(c)
    ensures ReadBody(Render(c), direct, messageId, rootId) ==
      ControlCommand(if rootId.Some? && (c.BindProject? || c.NewSession? || c.UnbindProject?) then Invalid
                     else if direct then DirectForm(c)
                     else c)
  {
    ParseRender(c);
    CommandInContext(c, direct, rootId.Some?, rootId.Some? && rootId.value != messageId);
  }

  lemma CommandInContext(c: Command, direct: bool, hasRoot: bool, threadReply: bool)
    requires Typable(c)
    ensures InContext(Some(c), direct, hasRoot, threadReply) ==
      ControlCommand(if hasRoot && (c.BindProject? || c.NewSession? || c.UnbindProject?) then Invalid
                     else if direct then DirectForm(c)
                     else c)
  {
  }

  /** A typed command, behind any mentions, in any chat: inside a thread what belongs to the room itself is
      invalid, a direct chat gets the direct form, a room the command itself. */
  lemma CommandArrives(c: Command, mentions: seq<string>, direct: bool, addressed: bool, messageId: string,
                       rootId: Option<string>)
    requires Typable(c) && (direct || addressed)
    requires forall m :: m in mentions ==> Mention(m)
    ensures Normalize(Concat(mentions) + Render(c), direct, addressed, messageId, rootId) ==
      ControlCommand(if rootId.Some? && (c.BindProject? || c.NewSession? || c.UnbindProject?) then Invalid
                     else if direct then DirectForm(c)
                     else c)
  {
    RenderIsTrimmed(c);
    MessageArrives(mentions, Render(c), direct, addressed, messageId, rootId);
    CommandIsRead(c, direct, messageId, rootId);
  }

  lemma RenderIsTrimmed(c: Command)
    requires Typable(c)
    ensures PresentAndTrimmed(Render(c)) && Render(c)[0] == '/'
  {
  }

  /** Without leading mentions only leading white space is taken away. */
  lemma PlainTextIsKept(text: string)
    requires TrimStart(text) == "" || TrimStart(text)[0] != '@'
    ensures StripMentions(text) == TrimStart(text)
  {
  }

  /** What is skipped: a blank message, a room message that is not for the bot, a message of mentions only,
      and a reply in a thread whose first word is no command. Everything else is answered, in plain
      conversation with guidance. */
  lemma SkippedIff(text: string, direct: bool, addressed: bool, messageId: string, rootId: Option<string>)
    ensures var o, body := Normalize(text, direct, addressed, messageId, rootId), Trim(StripMentions(Trim(text)));
      var isCommand := Words(body) != [] && IsCommandWord(Words(body)[0]);
      var threadReply := rootId.Some? && rootId.value != messageId;
      if Words(text) == [] then o == Skipped(EmptyMessage)
      else if !direct && !addressed then o == Skipped(NotAddressedToBot)
      else if body == "" then o == Skipped(EmptyMessage)
      else if isCommand then o.ControlCommand?
      else if threadReply then o == Skipped(NotControlCommand)
      else o == ControlCommand(if direct then DirectChatGuidance else RoomGuidance)
  {
    BlankIffNoWords(text);
    CommandIffFirstWord(Trim(StripMentions(Trim(text))));
  }
}
