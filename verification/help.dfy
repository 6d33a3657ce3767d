/**
 The `help` command (fedora/__init__.py:185-221). The members the source
 discovers by introspection are given here as a list, in the name-sorted
 order `inspect.getmembers` yields them.
 */
module Help {
  import opened Wrappers
  import opened Strings
  import opened Directory
  import opened Replies

  /** A declared command argument. */
  datatype ArgSpec = ArgSpec(name: string, required: bool)

  /**
   A member of the plugin object: a command handler (its attribute name, the
   command name it answers to, its help strings, its docstring and its
   arguments), or any other attribute.
   */
  datatype Member =
    | Command(attribute: string, name: string, help: string, fullHelp: string, doc: Option<string>,
              arguments: seq<ArgSpec>)
    | Plain(attribute: string)

  /** `<name>` for a required argument, `[name]` for an optional one. */
  function Bracketed(a: ArgSpec): string
  {
    if a.required then "<" + a.name + ">" else "[" + a.name + "]"
  }

  function BracketedAll(args: seq<ArgSpec>): (r: seq<string>)
    ensures |r| == |args|
    ensures forall i :: 0 <= i < |args| ==> r[i] == Bracketed(args[i])
  {
    seq(|args|, i requires 0 <= i < |args| => Bracketed(args[i]))
  }

  /** The argument string as a whole: every bracketed argument preceded by one space. */
  function ArgumentsText(args: seq<ArgSpec>): string
  {
    if args == [] then "" else " " + Join(BracketedAll(args), " ")
  }

  /** One more argument adds a space and its bracketed form. */
  lemma ArgumentsTextSnoc(args: seq<ArgSpec>, a: ArgSpec)
    ensures ArgumentsText(args + [a]) == ArgumentsText(args) + " " + Bracketed(a)
  {
    assert BracketedAll(args + [a]) == BracketedAll(args) + [Bracketed(a)];
    if args != [] {
      JoinSnoc(BracketedAll(args), Bracketed(a), " ");
    }
  }

  /** One turn of the loop below extends the argument string of the arguments seen so far. */
  lemma RenderStep(args: seq<ArgSpec>, i: nat, arguments: string)
    requires i < |args| && arguments == ArgumentsText(args[..i])
    ensures args[i].required ==> arguments + " <" + args[i].name + ">" == ArgumentsText(args[..i + 1])
    ensures !args[i].required ==> arguments + " [" + args[i].name + "]" == ArgumentsText(args[..i + 1])
  {
    ArgumentsTextSnoc(args[..i], args[i]);
    assert args[..i + 1] == args[..i] + [args[i]];
    var name := args[i].name;
    if args[i].required {
      assert arguments + " <" + name + ">" == arguments + " " + ("<" + name + ">");
    } else {
      assert arguments + " [" + name + "]" == arguments + " " + ("[" + name + "]");
    }
  }

  /** The loop of lines 211-216 that builds the argument string one argument at a time. */
  method RenderArguments(args: seq<ArgSpec>) returns (arguments: string)
    ensures arguments == ArgumentsText(args)
  {
    arguments := "";
    var i := 0;
    while i < |args|
      invariant 0 <= i <= |args|
      invariant arguments == ArgumentsText(args[..i])
    {
      RenderStep(args, i, arguments);
      if args[i].required {
        arguments := arguments + " <" + args[i].name + ">";
      } else {
        arguments := arguments + " [" + args[i].name + "]";
      }
      i := i + 1;
    }
    assert args[..|args|] == args;
  }

  /** Reads one bracketed argument back. */
  function Unbracket(s: string): Option<ArgSpec>
  {
    if |s| >= 2 && s[0] == '<' && s[|s| - 1] == '>' then Some(ArgSpec(s[1..|s| - 1], true))
    else if |s| >= 2 && s[0] == '[' && s[|s| - 1] == ']' then Some(ArgSpec(s[1..|s| - 1], false))
    else None
  }

  function UnbracketAll(pieces: seq<string>): Option<seq<ArgSpec>>
  {
    if pieces == [] then Some([])
    else
      match (Unbracket(pieces[0]), UnbracketAll(pieces[1..]))
      case (Some(a), Some(rest)) => Some([a] + rest)
      case _ => None
  }

  /** Reads a rendered argument string back into argument specs. */
  function ParseArguments(s: string): Option<seq<ArgSpec>>
  {
    if s == "" then Some([])
    else if s[0] != ' ' then None
    else UnbracketAll(Split(s[1..], ' '))
  }

  predicate NoSpaceInNames(args: seq<ArgSpec>)
  {
    forall i :: 0 <= i < |args| ==> ' ' !in args[i].name
  }

  lemma BracketedHasNoSpace(a: ArgSpec)
    requires ' ' !in a.name
    ensures ' ' !in Bracketed(a)
    ensures Unbracket(Bracketed(a)) == Some(a)
  {
    var b := Bracketed(a);
    assert b[1..|b| - 1] == a.name;
  }

  lemma {:induction false} UnbracketAllBracketed(args: seq<ArgSpec>)
    requires NoSpaceInNames(args)
    ensures UnbracketAll(BracketedAll(args)) == Some(args)
    decreases |args|
  {
    if args != [] {
      BracketedHasNoSpace(args[0]);
      assert BracketedAll(args)[1..] == BracketedAll(args[1..]);
      UnbracketAllBracketed(args[1..]);
      assert args == [args[0]] + args[1..];
    }
  }

  /** The rendered argument string determines the arguments: names and which are required. */
  lemma ArgumentsRoundTrip(args: seq<ArgSpec>)
    requires NoSpaceInNames(args)
    ensures ParseArguments(ArgumentsText(args)) == Some(args)
  {
    if args != [] {
      var pieces := BracketedAll(args);
      forall i | 0 <= i < |pieces|
        ensures ' ' !in pieces[i]
      {
        BracketedHasNoSpace(args[i]);
      }
      SplitJoin(pieces, ' ');
      assert ArgumentsText(args)[1..] == Join(pieces, " ");
      UnbracketAllBracketed(args);
    }
  }

  /** One line of the command listing (lines 217-220). */
  function ListingLine(name: string, args: seq<ArgSpec>, help: string): string
  {
    "`!" + name + " " + ArgumentsText(args) + "`:: " + help + NL
  }

  /** The command listing (lines 207-221): one line per command handler, nothing for other members. */
  function Listing(members: seq<Member>): string
  {
    if members == [] then ""
    else
      var line :=
        match members[0]
        case Command(_, name, help, _, _, args) => ListingLine(name, args, help)
        case Plain(_) => "";
      line + Listing(members[1..])
  }

  /** Every command handler has its line in the listing. */
  lemma {:induction false} ListingHasEveryCommand(members: seq<Member>, k: nat)
    requires k < |members| && members[k].Command?
    ensures IsInfix(ListingLine(members[k].name, members[k].arguments, members[k].help), Listing(members))
    decreases |members|
  {
    var m := members[k];
    var line := ListingLine(m.name, m.arguments, m.help);
    var rest := Listing(members[1..]);
    if k == 0 {
      assert Listing(members) == line + rest;
      assert OccursAt(line, Listing(members), 0);
    } else {
      assert members[1..][k - 1] == m;
      ListingHasEveryCommand(members[1..], k - 1);
      var head := Listing(members) [..|Listing(members)| - |rest|];
      assert Listing(members) == head + rest;
      InfixWithin(line, head, rest, []);
      assert head + rest + [] == Listing(members);
    }
  }

  /** The ALIASES table (line 20). */
  const Aliases: map<string, seq<string>> := map["hello" := ["hi", "hello2", "hellomynameis"], "user" := ["fasinfo"]]

  /** `ALIASES.get(name, [])`. */
  function AliasesOf(name: string): seq<string>
  {
    if name in Aliases then Aliases[name] else []
  }

  /** A member answers `help commandname` when the name is its attribute name or one of its aliases. */
  predicate Answers(m: Member, commandname: string)
  {
    commandname == m.attribute || commandname in AliasesOf(m.attribute)
  }

  /** The first member at or after `from` that answers `commandname`. */
  function FindMember(members: seq<Member>, commandname: string, from: nat): (r: Option<nat>)
    requires from <= |members|
    ensures r.Some? ==> from <= r.value < |members| && Answers(members[r.value], commandname)
    ensures r.Some? ==> forall i :: from <= i < r.value ==> !Answers(members[i], commandname)
    ensures r.None? ==> forall i :: from <= i < |members| ==> !Answers(members[i], commandname)
    decreases |members| - from
  {
    if from == |members| then None
    else if Answers(members[from], commandname) then Some(from)
    else FindMember(members, commandname, from + 1)
  }

  function AliasList(aliases: seq<string>): string
  {
    if aliases == [] then "" else "* `" + aliases[0] + "`" + NL + AliasList(aliases[1..])
  }

  /** The full help of one command (lines 194-199). */
  function DetailText(m: Member, commandname: string): string
    requires m.Command?
  {
    var output := m.fullHelp + NL + Show(m.doc);
    var aliases := if AliasesOf(commandname) != [] then AliasesOf(commandname) else AliasesOf(m.attribute);
    if aliases == [] then output
    else output + NL + NL + "#### Aliases ####" + NL + AliasList(aliases)
  }

  /**
   `help commandname` (lines 190-204): the first member answering the name;
   a member that is not a command handler has no help attributes, and reading
   them raises AttributeError.
   */
  function CommandHelp(members: seq<Member>, commandname: string): (r: Response)
    ensures FindMember(members, commandname, 0).None? ==>
              r == Sent("`" + commandname + "` is not a valid command")
    ensures FindMember(members, commandname, 0).Some? ==>
              var m := members[FindMember(members, commandname, 0).value];
              && (m.Plain? ==> r == Crashed(AttributeError))
              && (m.Command? ==> r == Sent(DetailText(m, commandname)))
  {
    match FindMember(members, commandname, 0)
    case None => Sent("`" + commandname + "` is not a valid command")
    case Some(i) =>
      match members[i]
      case Plain(_) => Crashed(AttributeError)
      case Command(_, _, _, _, _, _) => Sent(DetailText(members[i], commandname))
  }

  /** `!help`: the listing without an argument, one command's help with one. */
  function BotHelp(members: seq<Member>, commandname: string): (r: Response)
    ensures commandname == "" ==> r == Sent(Listing(members))
    ensures commandname != "" ==> r == CommandHelp(members, commandname)
  {
    if commandname == "" then Sent(Listing(members)) else CommandHelp(members, commandname)
  }

  /** Asking by an alias gives the same text as asking by the command's own attribute name. */
  lemma AliasAnswersLikeName(m: Member, alias: string)
    requires m.Command? && alias in AliasesOf(m.attribute)
    ensures DetailText(m, alias) == DetailText(m, m.attribute)
  {
    assert alias !in Aliases;
  }

  /**
   `help` looks names up by attribute, so a command whose attribute differs
   from its command name (`help` is the attribute `bothelp`) is not found by
   its command name.
   */
  lemma LookupByAttributeOnly(members: seq<Member>, commandname: string)
    requires forall c :: c in Aliases ==> commandname !in Aliases[c]
    requires forall i :: 0 <= i < |members| ==> members[i].attribute != commandname
    ensures CommandHelp(members, commandname) == Sent("`" + commandname + "` is not a valid command")
  {
  }
}
