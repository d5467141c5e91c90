/** The command line: one left-to-right scan per command, driven by that command's options. */
module ArgumentParser {
  import opened Wrappers

  datatype Command =
    | Status | Inbox | Read | Search | MarkRead | Archive | Send | Reply | PaperclipTool
    | AuthLogin | AuthStatus | AuthLogout
    | AgentConnect | AgentTrial | AgentEnroll | AgentStatus | AgentDisconnect
    | Version | SelfUpdate | Skill

  datatype SwitchName = Json | Unseen | All | Device | NoOpen | Open | Force

  datatype OptionName =
    | Folder | Limit | To | Cc | Bcc | ReplyTo | Subject | Body | BodyFile | ApiBaseUrl
    | Name | Reason | CapabilityName | MailboxAddress | OrganizationId | PostClaimCapability

  datatype Failure =
    | NoCommand
    | RootHelp
    | GroupHelp(group: string)
    | Help(command: Command)
    | InvalidChoice(word: string)
    | Unrecognized(words: seq<string>)
    | ExpectedArgument(option: OptionName)
    | BadNumber(option: OptionName)
    | BadMessageId(word: string)
    | Required(names: seq<string>)

  /** What a scan has read: the named settings are kept in the order given. */
  datatype Args = Args(json: bool, switches: set<SwitchName>, settings: seq<(OptionName, string)>, words: seq<string>)

  // --- the commands' tables ---------------------------------------------------------------------------

  function SwitchText(s: SwitchName): string {
    match s
    case Json => "--json"
    case Unseen => "--unseen"
    case All => "--all"
    case Device => "--device"
    case NoOpen => "--no-open"
    case Open => "--open"
    case Force => "--force"
  }

  function OptionText(o: OptionName): string {
    match o
    case Folder => "--folder"
    case Limit => "--limit"
    case To => "--to"
    case Cc => "--cc"
    case Bcc => "--bcc"
    case ReplyTo => "--reply-to"
    case Subject => "--subject"
    case Body => "--body"
    case BodyFile => "--body-file"
    case ApiBaseUrl => "--api-base-url"
    case Name => "--name"
    case Reason => "--reason"
    case CapabilityName => "--capability"
    case MailboxAddress => "--mailbox-address"
    case OrganizationId => "--organization-id"
    case PostClaimCapability => "--post-claim-capability"
  }

  function Switches(c: Command): seq<SwitchName> {
    match c
    case Skill => []
    case Inbox => [Json, Unseen]
    case Reply => [Json, All]
    case AuthLogin => [Json, Device, NoOpen, Open]
    case AgentConnect => [Json, Force, Device, NoOpen]
    case AgentTrial => [Json, Force]
    case AgentEnroll => [Json, Force]
    case _ => [Json]
  }

  function Options(c: Command): seq<OptionName> {
    match c
    case Inbox => [Folder, Limit]
    case Read => [Folder]
    case MarkRead => [Folder]
    case Archive => [Folder]
    case Search => [Limit]
    case Send => [To, Cc, Bcc, ReplyTo, Subject, Body, BodyFile]
    case Reply => [Folder, Body, BodyFile]
    case AuthLogin => [ApiBaseUrl]
    case AgentConnect => [ApiBaseUrl, Name, Reason, CapabilityName, MailboxAddress, OrganizationId]
    case AgentTrial => [ApiBaseUrl, Name, CapabilityName, PostClaimCapability]
    case AgentEnroll => [ApiBaseUrl, Name]
    case _ => []
  }

  predicate TakesMessageId(c: Command) {
    c.Read? || c.MarkRead? || c.Archive? || c.Reply?
  }

  predicate TakesWords(c: Command) {
    TakesMessageId(c) || c.Search? || c.AgentEnroll? || c.SelfUpdate?
  }

  /** Whether a word that looks like a negative number may stand among the options. */
  predicate AllowsNegativeNumbers(c: Command) {
    TakesMessageId(c) || c.Search?
  }

  function Initial(c: Command): Args {
    Args(c.PaperclipTool?, {}, [], [])
  }

  // --- single tokens ----------------------------------------------------------------------------------

  predicate IsDigit(c: char) {
    '0' <= c <= '9'
  }

  predicate AllDigits(s: string) {
    forall c :: c in s ==> IsDigit(c)
  }

  predicate IsNegativeNumber(value: string) {
    |value| >= 2 && value[0] == '-' && AllDigits(value[1..])
  }

  predicate Dashed(value: string) {
    value != "" && value[0] == '-'
  }

  predicate OptionLike(value: string) {
    value != "-" && Dashed(value) && !IsNegativeNumber(value)
  }

  predicate IsHelp(token: string) {
    token == "-h" || token == "--help"
  }

  function DigitsValue(s: string): nat
    requires AllDigits(s)
  {
    if s == "" then 0
    else
      var digit := s[|s| - 1];
      assert IsDigit(digit);
      10 * DigitsValue(s[..|s| - 1]) + (digit - '0') as int
  }

  /** strconv.Atoi into a 64-bit int, then the positive ones. */
  function PositiveInt(value: string): Option<nat> {
    var digits := if value != "" && (value[0] == '+' || value[0] == '-') then value[1..] else value;
    if digits == "" || !AllDigits(digits) || (value[0] == '-') then None
    else if 0 < DigitsValue(digits) < 0x8000_0000_0000_0000 then Some(DigitsValue(digits))
    else None
  }

  predicate Names(token: string, name: string) {
    token == name || name + "=" <= token
  }

  function FindSwitch(token: string, switches: seq<SwitchName>): Option<SwitchName> {
    if switches == [] then None
    else if token == SwitchText(switches[0]) then Some(switches[0])
    else FindSwitch(token, switches[1..])
  }

  /** The first option of the table that the token names. */
  function FindOption(token: string, options: seq<OptionName>): Option<OptionName> {
    if options == [] then None
    else if Names(token, OptionText(options[0])) then Some(options[0])
    else FindOption(token, options[1..])
  }

  predicate AcceptsValue(option: OptionName, value: string) {
    option == Limit ==> PositiveInt(value).Some?
  }

  /** An option's value and the number of tokens it takes up. */
  function FlagValue(argv: seq<string>, option: OptionName): (r: Result<(string, nat), Failure>)
    requires argv != []
    ensures r.Ok? ==> 1 <= r.value.1 <= |argv|
  {
    var name := OptionText(option);
    if name + "=" <= argv[0] then Ok((argv[0][|name| + 1..], 1))
    else if |argv| == 1 || OptionLike(argv[1]) then Err(ExpectedArgument(option))
    else Ok((argv[1], 2))
  }

  function Flip(args: Args, s: SwitchName): Args {
    if s == Json then args.(json := true) else args.(switches := args.switches + {s})
  }

  function Set(args: Args, option: OptionName, value: string): Args {
    args.(settings := args.settings + [(option, value)])
  }

  /** What a user can write: a switch, `--name=value`, `--name value`, or a plain word. */
  datatype Item = Switch(name: SwitchName) | Joined(option: OptionName, value: string) | Separate(option: OptionName, value: string) | Word(text: string)

  function Apply(args: Args, item: Item): Args {
    match item
    case Switch(name) => Flip(args, name)
    case Joined(option, value) => Set(args, option, value)
    case Separate(option, value) => Set(args, option, value)
    case Word(text) => AddWords(args, [text])
  }

  function AddWords(args: Args, words: seq<string>): Args {
    args.(words := args.words + words)
  }

  lemma AddWordsInTurn(args: Args, word: string, rest: seq<string>)
    ensures AddWords(AddWords(args, [word]), rest) == AddWords(args, [word] + rest)
  {
    assert args.words + [word] + rest == args.words + ([word] + rest);
  }

  lemma AddNoWords(args: Args)
    ensures AddWords(args, []) == args
  {
    assert args.words + [] == args.words;
  }

  // --- the scan ---------------------------------------------------------------------------------------

  predicate IsPlainWord(c: Command, token: string) {
    TakesWords(c) && (Dashed(token) ==> AllowsNegativeNumbers(c) && IsNegativeNumber(token))
  }

  /** What the tokens start with, and how many of them that is. */
  function NextItem(c: Command, argv: seq<string>): (r: Result<(Item, nat), Failure>)
    requires argv != []
    ensures r.Ok? ==> 1 <= r.value.1 <= |argv|
  {
    var token := argv[0];
    if IsHelp(token) then Err(Help(c))
    else if FindSwitch(token, Switches(c)).Some? then Ok((Switch(FindSwitch(token, Switches(c)).value), 1))
    else
      match FindOption(token, Options(c))
      case Some(option) =>
        (match FlagValue(argv, option)
         case Err(e) => Err(e)
         case Ok((value, used)) =>
           if !AcceptsValue(option, value) then Err(BadNumber(option))
           else Ok((if used == 1 then Joined(option, value) else Separate(option, value), used)))
      case None => if IsPlainWord(c, token) then Ok((Word(token), 1)) else Err(Unrecognized(argv))
  }

  /** Reads the tokens from left to right, stopping at the first that is wrong. */
  function Scan(c: Command, argv: seq<string>, args: Args): Result<Args, Failure>
    decreases |argv|
  {
    if argv == [] then Ok(args)
    else if argv[0] == "--" then
      if TakesWords(c) then Ok(AddWords(args, argv[1..]))
      else if |argv| > 1 then Err(Unrecognized(argv[1..]))
      else Ok(args)
    else
      match NextItem(c, argv)
      case Err(e) => Err(e)
      case Ok((item, used)) => Scan(c, argv[used..], Apply(args, item))
  }

  function Missing(args: Args): seq<string> {
    (if exists s :: s in args.settings && s.0 == To then [] else ["--to"])
    + if exists s :: s in args.settings && s.0 == Subject then [] else ["--subject"]
  }

  /** What is checked after the last token. */
  function Finish(c: Command, args: Args): Result<Args, Failure> {
    if c.Send? then if Missing(args) == [] then Ok(args) else Err(Required(Missing(args)))
    else if !TakesWords(c) then Ok(args)
    else if |args.words| == 0 && !c.SelfUpdate? then
      Err(Required([if TakesMessageId(c) then "message_id" else if c.Search? then "query" else "enrollment_token"]))
    else if |args.words| > 1 then Err(Unrecognized(args.words[1..]))
    else if TakesMessageId(c) && PositiveInt(args.words[0]).None? then Err(BadMessageId(args.words[0]))
    else Ok(args)
  }

  function ParseCommand(c: Command, argv: seq<string>): Result<Args, Failure> {
    match Scan(c, argv, Initial(c))
    case Ok(args) => Finish(c, args)
    case Err(e) => Err(e)
  }

  /** The option's value at `index`, and the index it was read from. */
  method TakeFlagValue(argv: seq<string>, index: nat, option: OptionName) returns (r: Result<string, Failure>, last: nat)
    requires index < |argv|
    ensures index <= last < |argv|
    ensures r == match FlagValue(argv[index..], option) case Ok(found) => Ok(found.0) case Err(e) => Err(e)
    ensures r.Ok? ==> last + 1 == index + FlagValue(argv[index..], option).value.1
  {
    last := index;
    var token, name := argv[index], OptionText(option);
    if name + "=" <= token {
      return Ok(token[|name| + 1..]), last;
    }
    if index + 1 >= |argv| || OptionLike(argv[index + 1]) {
      return Err(ExpectedArgument(option)), last;
    }
    last := index + 1;
    return Ok(argv[last]), last;
  }

  /** The cases of a parser's switch on the token at `index`. */
  method ReadItem(c: Command, argv: seq<string>, index: nat) returns (r: Result<Item, Failure>, last: nat)
    requires index < |argv|
    ensures index <= last < |argv|
    ensures r == match NextItem(c, argv[index..]) case Ok(found) => Ok(found.0) case Err(e) => Err(e)
    ensures r.Ok? ==> last + 1 == index + NextItem(c, argv[index..]).value.1
  {
    last := index;
    var token := argv[index];
    if IsHelp(token) {
      return Err(Help(c)), last;
    }
    var flag := FindSwitch(token, Switches(c));
    if flag.Some? {
      return Ok(Switch(flag.value)), last;
    }
    var option := FindOption(token, Options(c));
    if option.Some? {
      var value;
      value, last := TakeFlagValue(argv, index, option.value);
      if value.Err? {
        return Err(value.error), last;
      }
      if !AcceptsValue(option.value, value.value) {
        return Err(BadNumber(option.value)), last;
      }
      return Ok(if last == index then Joined(option.value, value.value) else Separate(option.value, value.value)), last;
    }
    if !IsPlainWord(c, token) {
      return Err(Unrecognized(argv[index..])), last;
    }
    return Ok(Word(token)), last;
  }

  lemma ScanOneItem(c: Command, argv: seq<string>, i: nat, args: Args)
    requires i < |argv| && argv[i] != "--"
    ensures var next := NextItem(c, argv[i..]);
            && (next.Err? ==> Scan(c, argv[i..], args) == Err(next.error))
            && (next.Ok? ==> Scan(c, argv[i..], args) == Scan(c, argv[i + next.value.1..], Apply(args, next.value.0)))
  {
    if NextItem(c, argv[i..]).Ok? {
      assert argv[i..][NextItem(c, argv[i..]).value.1..] == argv[i + NextItem(c, argv[i..]).value.1..];
    }
  }

  lemma ScanTerminator(c: Command, argv: seq<string>, i: nat, args: Args)
    requires i < |argv| && argv[i] == "--"
    ensures Scan(c, argv[i..], args) ==
            if TakesWords(c) then Ok(AddWords(args, argv[i + 1..]))
            else if i + 1 < |argv| then Err(Unrecognized(argv[i + 1..]))
            else Ok(args)
  {
    assert argv[i..][1..] == argv[i + 1..];
  }

  /** What is still to be made of the tokens from `i` on. */
  function Remaining(c: Command, argv: seq<string>, i: nat, parsingOptions: bool, args: Args): Result<Args, Failure>
    requires i <= |argv|
  {
    if parsingOptions then Scan(c, argv[i..], args) else Ok(AddWords(args, argv[i..]))
  }

  lemma RemainingWord(c: Command, argv: seq<string>, i: nat, args: Args)
    requires i < |argv|
    ensures Remaining(c, argv, i, false, args) == Remaining(c, argv, i + 1, false, AddWords(args, [argv[i]]))
  {
    assert argv[i..] == [argv[i]] + argv[i + 1..];
    AddWordsInTurn(args, argv[i], argv[i + 1..]);
  }

  lemma RemainingItem(c: Command, argv: seq<string>, i: nat, args: Args)
    requires i < |argv| && argv[i] != "--"
    ensures var next := NextItem(c, argv[i..]);
            && (next.Err? ==> Remaining(c, argv, i, true, args) == Err(next.error))
            && (next.Ok? ==> Remaining(c, argv, i, true, args) == Remaining(c, argv, i + next.value.1, true, Apply(args, next.value.0)))
  {
    ScanOneItem(c, argv, i, args);
  }

  lemma RemainingTerminator(c: Command, argv: seq<string>, i: nat, args: Args)
    requires i < |argv| && argv[i] == "--"
    ensures if TakesWords(c) then Remaining(c, argv, i, true, args) == Remaining(c, argv, i + 1, false, args)
            else Remaining(c, argv, i, true, args) == if i + 1 < |argv| then Err(Unrecognized(argv[i + 1..])) else Ok(args)
  {
    ScanTerminator(c, argv, i, args);
  }

  /** One turn of the loop: the item read moves on, the terminator switches to words, or the scan is over. */
  method ReadOne(c: Command, argv: seq<string>, i: nat, parsingOptions: bool, args: Args)
    returns (last: nat, parsing: bool, more: Args, end: Option<Result<Args, Failure>>)
    requires i < |argv|
    ensures end.Some? ==> Remaining(c, argv, i, parsingOptions, args) == end.value
    ensures end.None? ==> i <= last < |argv| && Remaining(c, argv, i, parsingOptions, args) == Remaining(c, argv, last + 1, parsing, more)
  {
    last, parsing, more, end := i, parsingOptions, args, None;
    if !parsingOptions {
      RemainingWord(c, argv, i, args);
      more := AddWords(args, [argv[i]]);
    } else if argv[i] == "--" {
      RemainingTerminator(c, argv, i, args);
      if TakesWords(c) {
        parsing := false;
      } else {
        end := Some(if i + 1 < |argv| then Err(Unrecognized(argv[i + 1..])) else Ok(args));
      }
    } else {
      RemainingItem(c, argv, i, args);
      var item;
      item, last := ReadItem(c, argv, i);
      if item.Ok? {
        more := Apply(args, item.value);
      } else {
        end := Some(Err(item.error));
      }
    }
  }

  method ScanCommand(c: Command, argv: seq<string>) returns (r: Result<Args, Failure>)
    ensures r == Scan(c, argv, Initial(c))
  {
    var args := Initial(c);
    var parsingOptions := true;
    var i := 0;
    assert argv[0..] == argv;
    while i < |argv|
      invariant i <= |argv|
      invariant Remaining(c, argv, 0, true, Initial(c)) == Remaining(c, argv, i, parsingOptions, args)
    {
      var last, end;
      last, parsingOptions, args, end := ReadOne(c, argv, i, parsingOptions, args);
      if end.Some? {
        return end.value;
      }
      i := last + 1;
    }
    assert argv[i..] == [];
    AddNoWords(args);
    return Ok(args);
  }

  // --- the grammar the scan accepts ---------------------------------------------------------------------

  /** Items, and possibly a `--` with whatever follows it. */
  datatype Line = Line(items: seq<Item>, tail: Option<seq<string>>)

  predicate GoodItem(c: Command, item: Item) {
    match item
    case Switch(name) => name in Switches(c)
    case Joined(option, value) => option in Options(c) && AcceptsValue(option, value)
    case Separate(option, value) => option in Options(c) && AcceptsValue(option, value) && !OptionLike(value)
    case Word(text) => IsPlainWord(c, text)
  }

  predicate GoodLine(c: Command, line: Line) {
    && (forall item :: item in line.items ==> GoodItem(c, item))
    && (line.tail.Some? && line.tail.value != [] ==> TakesWords(c))
  }

  function ItemTokens(item: Item): seq<string> {
    match item
    case Switch(name) => [SwitchText(name)]
    case Joined(option, value) => [OptionText(option) + "=" + value]
    case Separate(option, value) => [OptionText(option), value]
    case Word(text) => [text]
  }

  function TailTokens(tail: Option<seq<string>>): seq<string> {
    if tail.Some? then ["--"] + tail.value else []
  }

  function Render(line: Line): seq<string>
    decreases |line.items|
  {
    if line.items == [] then TailTokens(line.tail)
    else ItemTokens(line.items[0]) + Render(Line(line.items[1..], line.tail))
  }

  /** What a line means: each item adds its own part, and the tail adds its words. */
  function Meaning(line: Line, args: Args): Args
    decreases |line.items|
  {
    if line.items == [] then AddWords(args, if line.tail.Some? then line.tail.value else [])
    else Meaning(Line(line.items[1..], line.tail), Apply(args, line.items[0]))
  }

  /** Two dashes, something after them, and no equals sign. */
  predicate IsLongName(name: string) {
    && |name| > 2 && name[0] == '-' && name[1] == '-' && name[2] != '-'
    && (forall i :: 0 <= i < |name| ==> name[i] != '=')
    && name != "--help"
  }

  lemma OptionIsLongName(o: OptionName)
    ensures IsLongName(OptionText(o))
  {
    if o.Folder? || o.Limit? || o.To? || o.Cc? || o.Bcc? || o.ReplyTo? || o.Subject? || o.Body? {
      MessageOptionIsLongName(o);
    } else {
      OtherOptionIsLongName(o);
    }
  }

  lemma MessageOptionIsLongName(o: OptionName)
    requires o.Folder? || o.Limit? || o.To? || o.Cc? || o.Bcc? || o.ReplyTo? || o.Subject? || o.Body?
    ensures IsLongName(OptionText(o))
  {
  }

  lemma OtherOptionIsLongName(o: OptionName)
    requires !(o.Folder? || o.Limit? || o.To? || o.Cc? || o.Bcc? || o.ReplyTo? || o.Subject? || o.Body?)
    ensures IsLongName(OptionText(o))
  {
  }

  lemma SwitchIsLongName(s: SwitchName)
    ensures IsLongName(SwitchText(s))
  {
  }

  lemma OptionIsNoSwitch(o: OptionName, s: SwitchName)
    ensures OptionText(o) != SwitchText(s)
  {
    match s
    case Json => assert SwitchText(s)[2] == 'j';
    case Unseen => assert SwitchText(s)[2] == 'u';
    case All => assert SwitchText(s)[3] == 'l';
    case Device => assert SwitchText(s)[2] == 'd';
    case NoOpen => assert SwitchText(s)[3] == 'o';
    case Open => assert SwitchText(s)[3] == 'p';
    case Force => assert SwitchText(s)[4] == 'r';
  }

  lemma SwitchesDiffer(s: SwitchName, t: SwitchName)
    requires SwitchText(s) == SwitchText(t)
    ensures s == t
  {
  }

  /** Options differ in length, or else in their third or fifth letter. */
  lemma OptionsDiffer(o: OptionName, p: OptionName)
    requires OptionText(o) == OptionText(p)
    ensures o == p
  {
    OptionCode(o);
    OptionCode(p);
  }

  function Code(o: OptionName): int {
    match o
    case Folder => 1 case Limit => 2 case To => 3 case Cc => 4 case Bcc => 5 case ReplyTo => 6 case Subject => 7 case Body => 8
    case BodyFile => 9 case ApiBaseUrl => 10 case Name => 11 case Reason => 12 case CapabilityName => 13 case MailboxAddress => 14
    case OrganizationId => 15 case PostClaimCapability => 16
  }

  /** The code read off the text. */
  function TextCode(name: string): int
    requires |name| >= 4
  {
    if |name| == 8 then (if name[2] == 'f' then 1 else 12)
    else if |name| == 7 then 2
    else if |name| == 4 then (if name[2] == 't' then 3 else 4)
    else if |name| == 5 then 5
    else if |name| == 10 then 6
    else if |name| == 9 then 7
    else if |name| == 6 then (if name[2] == 'b' then 8 else 11)
    else if |name| == 11 then 9
    else if |name| == 14 then 10
    else if |name| == 12 then 13
    else if |name| == 17 then (if name[2] == 'm' then 14 else 15)
    else 16
  }

  lemma OptionCode(o: OptionName)
    ensures |OptionText(o)| >= 4 && TextCode(OptionText(o)) == Code(o)
  {
  }

  /** An equals sign after an option's name settles which option a token names. */
  lemma OneNameFits(token: string, a: string, b: string)
    requires IsLongName(a) && IsLongName(b) && Names(token, a) && Names(token, b)
    ensures a == b
  {
    assert a == token[..|a|] && b == token[..|b|];
    assert |a| < |token| ==> token[|a|] == (a + "=")[|a|];
    assert |b| < |token| ==> token[|b|] == (b + "=")[|b|];
  }

  lemma {:induction false} FindOptionFinds(token: string, options: seq<OptionName>, option: OptionName)
    requires option in options && Names(token, OptionText(option))
    ensures FindOption(token, options) == Some(option)
  {
    if Names(token, OptionText(options[0])) {
      OptionIsLongName(option);
      OptionIsLongName(options[0]);
      OneNameFits(token, OptionText(option), OptionText(options[0]));
      OptionsDiffer(option, options[0]);
    } else {
      FindOptionFinds(token, options[1..], option);
    }
  }

  lemma {:induction false} FindSwitchFinds(switches: seq<SwitchName>, s: SwitchName)
    requires s in switches
    ensures FindSwitch(SwitchText(s), switches) == Some(s)
  {
    if SwitchText(s) == SwitchText(switches[0]) {
      SwitchesDiffer(s, switches[0]);
    } else {
      FindSwitchFinds(switches[1..], s);
    }
  }

  lemma {:induction false} FoundSwitchFits(token: string, switches: seq<SwitchName>)
    requires FindSwitch(token, switches).Some?
    ensures FindSwitch(token, switches).value in switches && token == SwitchText(FindSwitch(token, switches).value)
  {
    if token != SwitchText(switches[0]) {
      FoundSwitchFits(token, switches[1..]);
    }
  }

  lemma {:induction false} FoundOptionFits(token: string, options: seq<OptionName>)
    requires FindOption(token, options).Some?
    ensures FindOption(token, options).value in options && Names(token, OptionText(FindOption(token, options).value))
  {
    if !Names(token, OptionText(options[0])) {
      FoundOptionFits(token, options[1..]);
    }
  }

  lemma NegativeNumberHasDigit(token: string)
    requires IsNegativeNumber(token)
    ensures IsDigit(token[1])
  {
    assert token[1] == token[1..][0];
    assert token[1] in token[1..];
  }

  /** A token that names an option starts with two dashes and is neither help, the terminator nor a switch. */
  lemma NamedTokenIsReserved(token: string, option: OptionName, switches: seq<SwitchName>)
    requires Names(token, OptionText(option))
    ensures Dashed(token) && !IsHelp(token) && token != "--" && !IsNegativeNumber(token) && FindSwitch(token, switches).None?
  {
    var name := OptionText(option);
    OptionIsLongName(option);
    assert name == token[..|name|];
    assert token[0] == name[0] && token[1] == name[1];
    if IsNegativeNumber(token) {
      NegativeNumberHasDigit(token);
    }
    if FindSwitch(token, switches).Some? {
      var s := FindSwitch(token, switches).value;
      FoundSwitchFits(token, switches);
      SwitchIsLongName(s);
      OptionIsNoSwitch(option, s);
    }
    if token != name {
      assert token[|name|] == (name + "=")[|name|] == '=';
    }
  }

  lemma SwitchIsItself(c: Command, name: SwitchName, rest: seq<string>)
    requires name in Switches(c)
    ensures SwitchText(name) != "--" && NextItem(c, [SwitchText(name)] + rest) == Ok((Switch(name), 1))
  {
    SwitchIsLongName(name);
    FindSwitchFinds(Switches(c), name);
  }

  lemma JoinedIsItself(c: Command, option: OptionName, value: string, rest: seq<string>)
    requires option in Options(c) && AcceptsValue(option, value)
    ensures var token := OptionText(option) + "=" + value;
            token != "--" && NextItem(c, [token] + rest) == Ok((Joined(option, value), 1))
  {
    var name := OptionText(option);
    var token := name + "=" + value;
    assert name + "=" <= token && token[|name| + 1..] == value;
    NamedTokenIsReserved(token, option, Switches(c));
    FindOptionFinds(token, Options(c), option);
  }

  lemma SeparateIsItself(c: Command, option: OptionName, value: string, rest: seq<string>)
    requires option in Options(c) && AcceptsValue(option, value) && !OptionLike(value)
    ensures OptionText(option) != "--" && NextItem(c, [OptionText(option), value] + rest) == Ok((Separate(option, value), 2))
  {
    var name := OptionText(option);
    NamedTokenIsReserved(name, option, Switches(c));
    FindOptionFinds(name, Options(c), option);
    SeparateValue([name, value] + rest, option);
  }

  lemma SeparateValue(argv: seq<string>, option: OptionName)
    requires |argv| >= 2 && argv[0] == OptionText(option) && !OptionLike(argv[1])
    ensures FlagValue(argv, option) == Ok((argv[1], 2))
  {
    var name := OptionText(option);
    assert |name + "="| > |name|;
  }

  lemma WordIsItself(c: Command, text: string, rest: seq<string>)
    requires IsPlainWord(c, text)
    ensures text != "--" && NextItem(c, [text] + rest) == Ok((Word(text), 1))
  {
    if IsNegativeNumber(text) {
      NegativeNumberHasDigit(text);
    }
    if FindSwitch(text, Switches(c)).Some? {
      FoundSwitchFits(text, Switches(c));
      SwitchIsLongName(FindSwitch(text, Switches(c)).value);
    }
    if FindOption(text, Options(c)).Some? {
      FoundOptionFits(text, Options(c));
      NamedTokenIsReserved(text, FindOption(text, Options(c)).value, []);
    }
  }

  /** One item is read as itself, whatever follows it. */
  lemma ItemIsRead(c: Command, item: Item, rest: seq<string>, args: Args)
    requires GoodItem(c, item)
    ensures Scan(c, ItemTokens(item) + rest, args) == Scan(c, rest, Apply(args, item))
  {
    var argv := ItemTokens(item) + rest;
    assert argv[|ItemTokens(item)|..] == rest;
    match item
    case Switch(name) => SwitchIsItself(c, name, rest);
    case Joined(option, value) => JoinedIsItself(c, option, value, rest);
    case Separate(option, value) => SeparateIsItself(c, option, value, rest);
    case Word(text) => WordIsItself(c, text, rest);
  }

  /** Every well-formed line is read back exactly as it was meant. */
  lemma {:induction false} ScanReadsLine(c: Command, line: Line, args: Args)
    requires GoodLine(c, line)
    ensures Scan(c, Render(line), args) == Ok(Meaning(line, args))
    decreases |line.items|
  {
    if line.items == [] {
      if line.tail.Some? {
        assert Render(line)[1..] == line.tail.value;
      }
      assert args.words + [] == args.words;
    } else {
      var rest := Line(line.items[1..], line.tail);
      assert line.items[0] in line.items;
      ItemIsRead(c, line.items[0], Render(rest), args);
      ScanReadsLine(c, rest, Apply(args, line.items[0]));
    }
  }

  /** What is read off the front is a well-formed item, written there. */
  lemma NextItemIsRendered(c: Command, argv: seq<string>)
    requires argv != [] && NextItem(c, argv).Ok?
    ensures var (item, used) := NextItem(c, argv).value;
            GoodItem(c, item) && argv == ItemTokens(item) + argv[used..]
  {
    var token := argv[0];
    if FindSwitch(token, Switches(c)).Some? {
      FoundSwitchFits(token, Switches(c));
    } else if FindOption(token, Options(c)).Some? {
      FoundOptionFits(token, Options(c));
      var name := OptionText(FindOption(token, Options(c)).value);
      if name + "=" <= token {
        assert name + "=" + token[|name| + 1..] == token;
      }
    }
  }

  /** Whatever the scan accepts is the rendering of a well-formed line. */
  lemma {:induction false} ScannedIsLine(c: Command, argv: seq<string>, args: Args) returns (line: Line)
    requires Scan(c, argv, args).Ok?
    ensures GoodLine(c, line) && Render(line) == argv
    decreases |argv|
  {
    if argv == [] {
      line := Line([], None);
    } else {
      var token := argv[0];
      if token == "--" {
        line := Line([], Some(argv[1..]));
        assert Render(line) == argv;
      } else {
        var (item, used) := NextItem(c, argv).value;
        NextItemIsRendered(c, argv);
        ItemIsRead(c, item, argv[used..], args);
        var rest := ScannedIsLine(c, argv[used..], Apply(args, item));
        line := Line([item] + rest.items, rest.tail);
        assert line.items[1..] == rest.items;
      }
    }
  }

  /** The scan accepts exactly the renderings of well-formed lines, and reads each as its meaning. */
  lemma ScanIsTheGrammar(c: Command, argv: seq<string>)
    ensures Scan(c, argv, Initial(c)).Ok? <==> exists line :: GoodLine(c, line) && Render(line) == argv
    ensures forall line :: GoodLine(c, line) && Render(line) == argv ==> Scan(c, argv, Initial(c)) == Ok(Meaning(line, Initial(c)))
  {
    if Scan(c, argv, Initial(c)).Ok? {
      var line := ScannedIsLine(c, argv, Initial(c));
    }
    forall line | GoodLine(c, line) && Render(line) == argv
      ensures Scan(c, argv, Initial(c)) == Ok(Meaning(line, Initial(c)))
    {
      ScanReadsLine(c, line, Initial(c));
    }
  }

  // --- what a line means, in its own parts ----------------------------------------------------------------

  function WordsIn(items: seq<Item>): seq<string> {
    if items == [] then [] else (if items[0].Word? then [items[0].text] else []) + WordsIn(items[1..])
  }

  function SettingsIn(items: seq<Item>): seq<(OptionName, string)> {
    if items == [] then []
    else (if items[0].Joined? || items[0].Separate? then [(items[0].option, items[0].value)] else []) + SettingsIn(items[1..])
  }

  /** The words and settings in their order, the tail's words last; the switches given, with JSON a flag of its own. */
  predicate Says(line: Line, before: Args, after: Args) {
    && after.words == before.words + (WordsIn(line.items) + if line.tail.Some? then line.tail.value else [])
    && after.settings == before.settings + SettingsIn(line.items)
    && SaysSwitches(line.items, before, after)
  }

  predicate SaysSwitches(items: seq<Item>, before: Args, after: Args) {
    && (after.json <==> before.json || Switch(Json) in items)
    && forall s :: s in after.switches <==> s in before.switches || (s != Json && Switch(s) in items)
  }

  lemma {:induction false} MeaningSays(line: Line, args: Args)
    ensures Says(line, args, Meaning(line, args))
    decreases |line.items|
  {
    if line.items != [] {
      var item, rest := line.items[0], Line(line.items[1..], line.tail);
      MeaningSays(rest, Apply(args, item));
      SaysMore(line, args, Meaning(line, args));
    }
  }

  lemma SaysMore(line: Line, before: Args, after: Args)
    requires line.items != [] && Says(Line(line.items[1..], line.tail), Apply(before, line.items[0]), after)
    ensures Says(line, before, after)
  {
    var item, rest := line.items[0], line.items[1..];
    var tail := if line.tail.Some? then line.tail.value else [];
    SwitchesMore(line.items, before, after);
    InTurn(before.words, if item.Word? then [item.text] else [], WordsIn(rest), tail);
    InTurn(before.settings, if item.Joined? || item.Separate? then [(item.option, item.value)] else [], SettingsIn(rest), []);
  }

  lemma SwitchesMore(items: seq<Item>, before: Args, after: Args)
    requires items != [] && SaysSwitches(items[1..], Apply(before, items[0]), after)
    ensures SaysSwitches(items, before, after)
  {
    assert items == [items[0]] + items[1..];
    assert forall s :: Switch(s) in items <==> Switch(s) == items[0] || Switch(s) in items[1..];
  }

  lemma InTurn<T>(before: seq<T>, one: seq<T>, rest: seq<T>, tail: seq<T>)
    ensures (before + one) + (rest + tail) == before + ((one + rest) + tail)
    ensures before + [] == before && rest + [] == rest
    ensures (before + one) + rest == before + (one + rest)
  {
  }

  lemma SaysOnce(line: Line, before: Args, after: Args)
    requires Says(line, before, after)
    ensures after == Meaning(line, before)
  {
    MeaningSays(line, before);
    assert after.switches == Meaning(line, before).switches;
  }

  // --- the commands' tables, read the other way --------------------------------------------------------------

  function CommandsWithOption(o: OptionName): set<Command> {
    match o
    case Folder => {Inbox, Read, MarkRead, Archive, Reply}
    case Limit => {Inbox, Search}
    case Body => {Send, Reply}
    case BodyFile => {Send, Reply}
    case To => {Send}
    case Cc => {Send}
    case Bcc => {Send}
    case ReplyTo => {Send}
    case Subject => {Send}
    case ApiBaseUrl => {AuthLogin, AgentConnect, AgentTrial, AgentEnroll}
    case Name => {AgentConnect, AgentTrial, AgentEnroll}
    case CapabilityName => {AgentConnect, AgentTrial}
    case Reason => {AgentConnect}
    case MailboxAddress => {AgentConnect}
    case OrganizationId => {AgentConnect}
    case PostClaimCapability => {AgentTrial}
  }

  predicate HasSwitch(c: Command, s: SwitchName) {
    match s
    case Json => c != Skill
    case Unseen => c == Inbox
    case All => c == Reply
    case Open => c == AuthLogin
    case Device => c == AuthLogin || c == AgentConnect
    case NoOpen => c == AuthLogin || c == AgentConnect
    case Force => c == AgentConnect || c == AgentTrial || c == AgentEnroll
  }

  lemma TablesAgree(c: Command)
    ensures forall o :: o in Options(c) <==> c in CommandsWithOption(o)
    ensures forall s :: s in Switches(c) <==> HasSwitch(c, s)
  {
    forall o ensures o in Options(c) <==> c in CommandsWithOption(o) {
      OptionTablesAgree(c, o);
    }
    forall s ensures s in Switches(c) <==> HasSwitch(c, s) {
      SwitchTablesAgree(c, s);
    }
  }

  lemma OptionTablesAgree(c: Command, o: OptionName)
    ensures o in Options(c) <==> c in CommandsWithOption(o)
  {
  }

  lemma SwitchTablesAgree(c: Command, s: SwitchName)
    ensures s in Switches(c) <==> HasSwitch(c, s)
  {
  }

  /** What may stand as a plain word: nothing with a dash, but for messages and searches a dash and digits. */
  lemma PlainWordsExactly(c: Command, text: string)
    ensures IsPlainWord(c, text) <==>
              if text == "" || text[0] != '-' then c in {Read, MarkRead, Archive, Reply, Search, AgentEnroll, SelfUpdate}
              else c in {Read, MarkRead, Archive, Reply, Search} && |text| > 1 && forall i :: 1 <= i < |text| ==> '0' <= text[i] <= '9'
  {
    if text != "" && text[0] == '-' {
      assert forall i :: 1 <= i < |text| ==> text[i] in text[1..];
      assert forall i :: 1 <= i < |text| ==> text[1..][i - 1] == text[i];
    }
  }

  /** What cannot be an option's separate value: a dash and something after it that is no digit. */
  lemma OptionLikeExactly(value: string)
    ensures OptionLike(value) <==> |value| > 1 && value[0] == '-' && exists i :: 1 <= i < |value| && !('0' <= value[i] <= '9')
  {
    if |value| > 1 && value[0] == '-' {
      assert forall i :: 1 <= i < |value| ==> value[i] in value[1..];
      assert forall i :: 1 <= i < |value| ==> value[1..][i - 1] == value[i];
    } else if value != "" && value[0] == '-' {
      assert value == "-";
    }
  }

  // --- numerals -------------------------------------------------------------------------------------------------

  function Decimal(n: nat): string {
    (if n < 10 then "" else Decimal(n / 10)) + [('0' as int + n % 10) as char]
  }

  predicate AreZeros(s: string) {
    forall i :: 0 <= i < |s| ==> s[i] == '0'
  }

  lemma {:induction false} DecimalValue(zeros: string, n: nat)
    requires AreZeros(zeros)
    ensures AllDigits(zeros + Decimal(n)) && DigitsValue(zeros + Decimal(n)) == n
    decreases n
  {
    var s, digit := zeros + Decimal(n), ('0' as int + n % 10) as char;
    var front := s[..|s| - 1];
    assert s == front + [digit];
    if n < 10 {
      assert front == zeros;
      ZerosValue(zeros);
    } else {
      assert front == zeros + Decimal(n / 10);
      DecimalValue(zeros, n / 10);
    }
  }

  lemma {:induction false} ZerosValue(zeros: string)
    requires AreZeros(zeros)
    ensures AllDigits(zeros) && DigitsValue(zeros) == 0
  {
    if zeros != "" {
      ZerosValue(zeros[..|zeros| - 1]);
      assert zeros == zeros[..|zeros| - 1] + ['0'];
    }
  }

  /** Zeros and then the numeral of a positive number, or nothing more. */
  predicate StandsFor(s: string, zeros: string, n: nat) {
    AreZeros(zeros) && s == zeros + if n == 0 then "" else Decimal(n)
  }

  lemma DecimalGrows(s: string, zeros: string, n: nat, digit: char) returns (more: string)
    requires IsDigit(digit) && StandsFor(s, zeros, n)
    ensures StandsFor(s + [digit], more, 10 * n + (digit - '0') as int)
  {
    OneMoreDigit(n, digit);
    more := if n == 0 && digit == '0' then zeros + [digit] else zeros;
  }

  /** Digits stand for their value. */
  lemma {:induction false} DigitsAreDecimal(s: string) returns (zeros: string)
    requires AllDigits(s)
    ensures StandsFor(s, zeros, DigitsValue(s))
  {
    zeros := "";
    if s != "" {
      var front, last := s[..|s| - 1], s[|s| - 1];
      FrontIsDigits(s);
      zeros := DigitsAreDecimal(front);
      zeros := DecimalGrows(front, zeros, DigitsValue(front), last);
      assert s == front + [last];
    }
  }

  lemma FrontIsDigits(s: string)
    requires s != "" && AllDigits(s)
    ensures AllDigits(s[..|s| - 1]) && IsDigit(s[|s| - 1]) && DigitsValue(s) == 10 * DigitsValue(s[..|s| - 1]) + (s[|s| - 1] - '0') as int
  {
    assert s[|s| - 1] in s && forall c :: c in s[..|s| - 1] ==> c in s;
  }

  lemma OneMoreDigit(n: nat, digit: char)
    requires IsDigit(digit)
    ensures var m := 10 * n + (digit - '0') as int;
            m > 0 ==> Decimal(m) == (if n == 0 then "" else Decimal(n)) + [digit]
  {
    var m := 10 * n + (digit - '0') as int;
    assert m / 10 == n && m % 10 == (digit - '0') as int;
    assert ('0' as int + m % 10) as char == digit;
  }

  /** Zeros and then the number in decimal. */
  ghost predicate IsNumeral(s: string, n: nat) {
    exists zeros :: AreZeros(zeros) && s == zeros + Decimal(n)
  }

  lemma NumeralsExactly(s: string, n: nat)
    requires n > 0
    ensures IsNumeral(s, n) <==> AllDigits(s) && DigitsValue(s) == n
  {
    if AllDigits(s) && DigitsValue(s) == n {
      var zeros := DigitsAreDecimal(s);
    }
    if zeros :| AreZeros(zeros) && s == zeros + Decimal(n) {
      DecimalValue(zeros, n);
    }
  }

  /** A positive number is accepted in any numeral of it, with a plus or without, as long as it fits 64 bits. */
  lemma PositiveNumerals(value: string, n: nat)
    ensures PositiveInt(value) == Some(n) <==>
              0 < n < 0x8000_0000_0000_0000 && (IsNumeral(value, n) || (value != "" && value[0] == '+' && IsNumeral(value[1..], n)))
  {
    if n > 0 {
      NumeralsExactly(value, n);
      if value != "" {
        assert value[0] in value;
        NumeralsExactly(value[1..], n);
      }
    }
  }

  /** Any text is a value, except that a limit is a positive number. */
  lemma ValuesExactly(option: OptionName, value: string)
    ensures AcceptsValue(option, value) <==>
              option != Limit || exists n: nat :: 0 < n < 0x8000_0000_0000_0000 && (IsNumeral(value, n) || (value != "" && value[0] == '+' && IsNumeral(value[1..], n)))
  {
    if PositiveInt(value).Some? {
      PositiveNumerals(value, PositiveInt(value).value);
    }
    forall n: nat | 0 < n < 0x8000_0000_0000_0000 && (IsNumeral(value, n) || (value != "" && value[0] == '+' && IsNumeral(value[1..], n)))
      ensures PositiveInt(value) == Some(n)
    {
      PositiveNumerals(value, n);
    }
  }

  // --- the whole command line ---------------------------------------------------------------------------

  function CommandNamed(word: string): Option<Command> {
    if word == "status" then Some(Status)
    else if word == "inbox" then Some(Inbox)
    else if word == "read" then Some(Read)
    else if word == "search" then Some(Search)
    else if word == "mark-read" then Some(MarkRead)
    else if word == "archive" then Some(Archive)
    else if word == "send" then Some(Send)
    else if word == "reply" then Some(Reply)
    else if word == "paperclip-tool" then Some(PaperclipTool)
    else if word == "version" || word == "-v" || word == "-V" || word == "--version" then Some(Version)
    else if word == "self-update" then Some(SelfUpdate)
    else if word == "skill" then Some(Skill)
    else None
  }

  function AuthCommandNamed(word: string): Option<Command> {
    if word == "login" then Some(AuthLogin)
    else if word == "status" then Some(AuthStatus)
    else if word == "logout" then Some(AuthLogout)
    else None
  }

  function AgentCommandNamed(word: string): Option<Command> {
    if word == "connect" then Some(AgentConnect)
    else if word == "trial" then Some(AgentTrial)
    else if word == "enroll" then Some(AgentEnroll)
    else if word == "status" then Some(AgentStatus)
    else if word == "disconnect" then Some(AgentDisconnect)
    else None
  }

  /** The command a line is for, and how many words name it. */
  function Route(argv: seq<string>): (r: Result<(Command, nat), Failure>)
    ensures r.Ok? ==> 1 <= r.value.1 <= |argv|
  {
    if argv == [] then Err(NoCommand)
    else if IsHelp(argv[0]) then Err(RootHelp)
    else if argv[0] == "auth" || argv[0] == "agent" then
      if |argv| == 1 then Err(Required([argv[0] + "_command"]))
      else if IsHelp(argv[1]) then Err(GroupHelp(argv[0]))
      else
        match if argv[0] == "auth" then AuthCommandNamed(argv[1]) else AgentCommandNamed(argv[1])
        case Some(c) => Ok((c, 2))
        case None => Err(InvalidChoice(argv[1]))
    else
      match CommandNamed(argv[0])
      case Some(c) => Ok((c, 1))
      case None => Err(InvalidChoice(argv[0]))
  }

  function Parse(argv: seq<string>): Result<(Command, Args), Failure> {
    match Route(argv)
    case Err(e) => Err(e)
    case Ok(route) =>
      match ParseCommand(route.0, argv[route.1..])
      case Err(e) => Err(e)
      case Ok(args) => Ok((route.0, args))
  }

  /** The words that name a command, in every spelling. */
  function NamesOf(c: Command): set<seq<string>> {
    match c
    case Status => {["status"]}
    case Inbox => {["inbox"]}
    case Read => {["read"]}
    case Search => {["search"]}
    case MarkRead => {["mark-read"]}
    case Archive => {["archive"]}
    case Send => {["send"]}
    case Reply => {["reply"]}
    case PaperclipTool => {["paperclip-tool"]}
    case AuthLogin => {["auth", "login"]}
    case AuthStatus => {["auth", "status"]}
    case AuthLogout => {["auth", "logout"]}
    case AgentConnect => {["agent", "connect"]}
    case AgentTrial => {["agent", "trial"]}
    case AgentEnroll => {["agent", "enroll"]}
    case AgentStatus => {["agent", "status"]}
    case AgentDisconnect => {["agent", "disconnect"]}
    case Version => {["version"], ["-v"], ["-V"], ["--version"]}
    case SelfUpdate => {["self-update"]}
    case Skill => {["skill"]}
  }

  lemma CommandIsNamed(word: string, c: Command)
    ensures CommandNamed(word) == Some(c) <==> [word] in NamesOf(c)
  {
    assert [word][0] == word;
    if CommandNamed(word) == Some(c) {
      assert [word] in NamesOf(c);
    }
    if [word] in NamesOf(c) {
      var name :| name in NamesOf(c) && name == [word];
      assert name[0] == word;
    }
  }

  lemma GroupCommandIsNamed(word: string, c: Command)
    ensures AuthCommandNamed(word) == Some(c) <==> ["auth", word] in NamesOf(c)
    ensures AgentCommandNamed(word) == Some(c) <==> ["agent", word] in NamesOf(c)
  {
    assert ["auth", word][1] == word && ["agent", word][1] == word;
    if ["auth", word] in NamesOf(c) {
      var name :| name in NamesOf(c) && name == ["auth", word];
      assert |name| == 2 && name[0] == "auth" && name[1] == word;
    }
    if ["agent", word] in NamesOf(c) {
      var name :| name in NamesOf(c) && name == ["agent", word];
      assert |name| == 2 && name[0] == "agent" && name[1] == word;
    }
  }

  /** A line is for a command exactly when it begins with one of its names. */
  lemma RouteIsNaming(argv: seq<string>, c: Command, n: nat)
    ensures Route(argv) == Ok((c, n)) <==> n <= |argv| && argv[..n] in NamesOf(c)
  {
    if argv != [] {
      assert argv[..1] == [argv[0]];
      CommandIsNamed(argv[0], c);
      if |argv| > 1 {
        assert argv[..2] == [argv[0], argv[1]];
        GroupCommandIsNamed(argv[1], c);
      }
    }
    if n <= |argv| && argv[..n] in NamesOf(c) {
      NamesAreShort(c, argv[..n]);
    }
  }

  lemma NamesAreShort(c: Command, name: seq<string>)
    requires name in NamesOf(c)
    ensures |name| == 1 || |name| == 2
    ensures |name| == 1 ==> name[0] != "auth" && name[0] != "agent" && !IsHelp(name[0])
    ensures |name| == 2 ==> (name[0] == "auth" || name[0] == "agent") && !IsHelp(name[0]) && !IsHelp(name[1])
  {
  }

  /** Everything the command needs was given, and no word too many. */
  predicate IsComplete(c: Command, args: Args) {
    match c
    case Send => (exists s :: s in args.settings && s.0 == To) && exists s :: s in args.settings && s.0 == Subject
    case Read => |args.words| == 1 && PositiveInt(args.words[0]).Some?
    case MarkRead => |args.words| == 1 && PositiveInt(args.words[0]).Some?
    case Archive => |args.words| == 1 && PositiveInt(args.words[0]).Some?
    case Reply => |args.words| == 1 && PositiveInt(args.words[0]).Some?
    case Search => |args.words| == 1
    case AgentEnroll => |args.words| == 1
    case SelfUpdate => |args.words| <= 1
    case _ => true
  }

  lemma FinishedIsComplete(c: Command, args: Args)
    ensures Finish(c, args).Ok? <==> IsComplete(c, args)
    ensures Finish(c, args).Ok? ==> Finish(c, args).value == args
  {
  }

  /** The words are a rendering of a well-formed, complete line of the command that means these arguments. */
  ghost predicate MeansArgs(words: seq<string>, c: Command, args: Args) {
    exists line :: GoodLine(c, line) && Render(line) == words && Says(line, Args(c.PaperclipTool?, {}, [], []), args) && IsComplete(c, args)
  }

  /** A name of the command stands first, and the words after it mean these arguments. */
  ghost predicate IsReading(argv: seq<string>, c: Command, args: Args) {
    exists n: nat :: n <= |argv| && argv[..n] in NamesOf(c) && MeansArgs(argv[n..], c, args)
  }

  lemma ParseIsReading(argv: seq<string>, c: Command, args: Args)
    ensures Parse(argv) == Ok((c, args)) <==> IsReading(argv, c, args)
  {
    if Route(argv).Ok? && Route(argv).value.0 == c {
      var n := Route(argv).value.1;
      RouteIsNaming(argv, c, n);
      ScannedMeansArgs(c, argv[n..], args);
    }
    if IsReading(argv, c, args) {
      var n: nat :| n <= |argv| && argv[..n] in NamesOf(c) && MeansArgs(argv[n..], c, args);
      RouteIsNaming(argv, c, n);
    }
  }

  lemma ScannedMeansArgs(c: Command, words: seq<string>, args: Args)
    ensures ParseCommand(c, words) == Ok(args) <==> MeansArgs(words, c, args)
  {
    ScanIsTheGrammar(c, words);
    if Scan(c, words, Initial(c)).Ok? {
      FinishedIsComplete(c, Scan(c, words, Initial(c)).value);
      var line :| GoodLine(c, line) && Render(line) == words;
      MeaningSays(line, Initial(c));
    }
    forall line | GoodLine(c, line) && Render(line) == words && Says(line, Initial(c), args) ensures args == Meaning(line, Initial(c)) {
      SaysOnce(line, Initial(c), args);
    }
  }

  /** A help switch after a command asks for its help, as it does alone or after a group. */
  lemma HelpIsAnswered(c: Command, name: seq<string>, help: string, rest: seq<string>)
    requires name in NamesOf(c) && (help == "-h" || help == "--help")
    ensures Parse(name + [help] + rest) == Err(Help(c))
  {
    var argv := name + [help] + rest;
    NamesAreShort(c, name);
    assert argv[..|name|] == name && argv[|name|..] == [help] + rest;
    RouteIsNaming(argv, c, |name|);
    assert NextItem(c, [help] + rest) == Err(Help(c));
  }

  lemma GroupHelpIsAnswered(group: string, help: string, rest: seq<string>)
    requires (help == "-h" || help == "--help") && (group == "auth" || group == "agent")
    ensures Parse([help] + rest) == Err(RootHelp)
    ensures Parse([group, help] + rest) == Err(GroupHelp(group))
  {
    assert ([help] + rest)[0] == help;
    var argv := [group, help] + rest;
    assert argv[0] == group && argv[1] == help;
  }

  /** Every command but `send` parses from its name and as many plain words as it wants. */
  lemma PlainLinesParse(c: Command, name: seq<string>, words: seq<string>)
    requires name in NamesOf(c) && !c.Send? && IsComplete(c, Args(false, {}, [], words))
    requires forall w :: w in words ==> IsPlainWord(c, w)
    ensures Parse(name + words) == Ok((c, Args(c.PaperclipTool?, {}, [], words)))
  {
    var argv := name + words;
    assert argv[..|name|] == name && argv[|name|..] == words;
    RouteIsNaming(argv, c, |name|);
    PlainWordsMean(c, words);
    ScannedMeansArgs(c, words, Args(c.PaperclipTool?, {}, [], words));
  }

  lemma PlainWordsMean(c: Command, words: seq<string>)
    requires !c.Send? && IsComplete(c, Args(false, {}, [], words)) && forall w :: w in words ==> IsPlainWord(c, w)
    ensures MeansArgs(words, c, Args(c.PaperclipTool?, {}, [], words))
  {
    var line := Line(Plain(words), None);
    PlainSays(c, words);
    assert Says(line, Args(c.PaperclipTool?, {}, [], []), Args(c.PaperclipTool?, {}, [], words));
  }

  function Plain(words: seq<string>): seq<Item> {
    if words == [] then [] else [Word(words[0])] + Plain(words[1..])
  }

  lemma {:induction false} PlainSays(c: Command, words: seq<string>)
    requires forall w :: w in words ==> IsPlainWord(c, w)
    ensures var line := Line(Plain(words), None);
            && GoodLine(c, line) && Render(line) == words && WordsIn(line.items) == words && SettingsIn(line.items) == []
            && forall s :: Switch(s) !in line.items
  {
    if words != [] {
      PlainSays(c, words[1..]);
      var items := Plain(words);
      assert items[1..] == Plain(words[1..]) && words == [words[0]] + words[1..];
    }
  }

  /** Parses exactly the lines of the grammar, each as its meaning, and asks for JSON exactly when the line does. */
  method ParseArgs(argv: seq<string>) returns (r: Result<(Command, Args), Failure>)
    ensures r == Parse(argv)
    ensures r.Ok? ==> IsReading(argv, r.value.0, r.value.1)
    ensures r.Err? ==> forall c, args :: !IsReading(argv, c, args)
    ensures r.Ok? ==> (r.value.1.json <==> r.value.0.PaperclipTool? || JsonBeforeTerminator(argv, 1))
  {
    forall c, args ensures Parse(argv) == Ok((c, args)) <==> IsReading(argv, c, args) {
      ParseIsReading(argv, c, args);
    }
    if Parse(argv).Ok? {
      ScanAgreesWithParser(argv);
    }
    var route := Route(argv);
    if route.Err? {
      return Err(route.error);
    }
    var scanned := ScanCommand(route.value.0, argv[route.value.1..]);
    if scanned.Err? {
      return Err(scanned.error);
    }
    var finished := Finish(route.value.0, scanned.value);
    if finished.Err? {
      return Err(finished.error);
    }
    return Ok((route.value.0, finished.value));
  }

  // --- the error path's own scan -------------------------------------------------------------------------

  /** `--json` occurs from position `from` on, before any `--`. */
  predicate JsonBeforeTerminator(argv: seq<string>, from: nat) {
    exists i :: from <= i < |argv| && argv[i] == "--json" && forall j :: from <= j < i ==> argv[j] != "--"
  }

  method ArgvRequestsJSON(argv: seq<string>) returns (requested: bool)
    ensures requested <==> JsonBeforeTerminator(argv, 1)
  {
    if |argv| < 2 {
      return false;
    }
    for i := 1 to |argv|
      invariant forall j :: 1 <= j < i ==> argv[j] != "--" && argv[j] != "--json"
    {
      if argv[i] == "--" {
        return false;
      }
      if argv[i] == "--json" {
        return true;
      }
    }
    return false;
  }

  lemma JsonInParts(front: seq<string>, rest: seq<string>)
    requires forall t :: t in front ==> t != "--"
    ensures JsonBeforeTerminator(front + rest, 0) <==> "--json" in front || JsonBeforeTerminator(rest, 0)
  {
    var argv := front + rest;
    if JsonBeforeTerminator(argv, 0) && "--json" !in front {
      var i :| 0 <= i < |argv| && argv[i] == "--json" && forall j :: 0 <= j < i ==> argv[j] != "--";
      assert rest[i - |front|] == "--json";
      assert forall j :: 0 <= j < i - |front| ==> rest[j] == argv[|front| + j];
    }
    if "--json" in front {
      var i :| 0 <= i < |front| && front[i] == "--json";
      assert argv[i] == "--json";
      assert forall j :: 0 <= j < i ==> argv[j] == front[j] && front[j] in front;
    } else if JsonBeforeTerminator(rest, 0) {
      var i :| 0 <= i < |rest| && rest[i] == "--json" && forall j :: 0 <= j < i ==> rest[j] != "--";
      assert argv[|front| + i] == "--json";
      forall j | 0 <= j < |front| + i ensures argv[j] != "--" {
        if j < |front| {
          assert front[j] in front;
        } else {
          assert argv[j] == rest[j - |front|];
        }
      }
    }
  }

  /** No token of an item is the terminator, and only the switch itself is `--json`. */
  lemma ItemTokensAndJson(c: Command, item: Item)
    requires GoodItem(c, item)
    ensures forall t :: t in ItemTokens(item) ==> t != "--"
    ensures "--json" in ItemTokens(item) <==> item == Switch(Json)
  {
    ReservedWords();
    match item
    case Switch(name) =>
      SwitchIsLongName(name);
      if SwitchText(name) == SwitchText(Json) {
        SwitchesDiffer(name, Json);
      }
    case Joined(option, value) =>
      NamedTokenIsReserved(OptionText(option) + "=" + value, option, [Json]);
    case Separate(option, value) =>
      NamedTokenIsReserved(OptionText(option), option, [Json]);
    case Word(text) =>
  }

  lemma ReservedWords()
    ensures OptionLike("--json") && OptionLike("--") && IsLongName("--json")
  {
    SwitchIsLongName(Json);
    if IsNegativeNumber("--json") {
      NegativeNumberHasDigit("--json");
    }
    if IsNegativeNumber("--") {
      NegativeNumberHasDigit("--");
    }
  }

  lemma {:induction false} LineAndJson(c: Command, line: Line, args: Args)
    requires GoodLine(c, line)
    ensures Meaning(line, args).json <==> args.json || JsonBeforeTerminator(Render(line), 0)
    decreases |line.items|
  {
    if line.items == [] {
      assert line.tail.Some? ==> Render(line)[0] == "--";
    } else {
      var item, rest := line.items[0], Line(line.items[1..], line.tail);
      assert item in line.items;
      ItemTokensAndJson(c, item);
      JsonInParts(ItemTokens(item), Render(rest));
      LineAndJson(c, rest, Apply(args, item));
    }
  }

  /** Looking from a position on is looking at the rest. */
  lemma JsonFromRest(argv: seq<string>)
    requires argv != []
    ensures JsonBeforeTerminator(argv, 1) <==> JsonBeforeTerminator(argv[1..], 0)
  {
    var rest := argv[1..];
    if JsonBeforeTerminator(argv, 1) {
      var i :| 1 <= i < |argv| && argv[i] == "--json" && forall j :: 1 <= j < i ==> argv[j] != "--";
      assert rest[i - 1] == "--json";
      assert forall j :: 0 <= j < i - 1 ==> rest[j] == argv[j + 1];
    }
    if JsonBeforeTerminator(rest, 0) {
      var i :| 0 <= i < |rest| && rest[i] == "--json" && forall j :: 0 <= j < i ==> rest[j] != "--";
      assert argv[i + 1] == "--json";
      assert forall j :: 1 <= j < i + 1 ==> argv[j] == rest[j - 1];
    }
  }

  lemma RouteWordsAreNotJson(argv: seq<string>)
    requires Route(argv).Ok?
    ensures JsonBeforeTerminator(argv, 1) <==> JsonBeforeTerminator(argv[Route(argv).value.1..], 0)
  {
    var n := Route(argv).value.1;
    var front, rest := argv[1..n], argv[n..];
    assert argv[1..] == front + rest;
    assert n == 2 ==> front == [argv[1]];
    JsonInParts(front, rest);
    JsonFromRest(argv);
  }

  /** The scan and the parsers agree on every line that parses, except the one command that always answers in JSON. */
  lemma ScanAgreesWithParser(argv: seq<string>)
    requires Parse(argv).Ok?
    ensures var (command, args) := Parse(argv).value;
            && (!command.PaperclipTool? ==> (args.json <==> JsonBeforeTerminator(argv, 1)))
            && (command.PaperclipTool? ==> args.json)
  {
    var (c, n) := Route(argv).value;
    var line := ScannedIsLine(c, argv[n..], Initial(c));
    ScanReadsLine(c, line, Initial(c));
    LineAndJson(c, line, Initial(c));
    RouteWordsAreNotJson(argv);
  }

  /** `paperclip-tool` alone parses to JSON output while the scan says otherwise. */
  lemma PaperclipToolDisagrees()
    ensures var argv := ["paperclip-tool"];
            Parse(argv).Ok? && Parse(argv).value.1.json && !JsonBeforeTerminator(argv, 1)
  {
  }
}
