/**
 * How `handleCommand` reads a line: trim it, ignore it if nothing is left,
 * split it on single spaces, lower-case the first piece as the verb and
 * rejoin the remaining pieces as the argument; then the verb table.
 */
module Commands {
  import opened Text

  datatype Option<T> = None | Some(value: T)

  datatype Parsed = Parsed(verb: string, arg: string)

  /** Splitting on spaces cuts at the first space: the first piece is the
      text before it and the other pieces rejoin to the text after it. */
  lemma SplitAtFirstSpace(input: string)
    ensures forall i :: 0 <= i < |input| && input[i] == ' ' && ' ' !in input[..i] ==>
              var parts := Split(input, ' ');
              parts[0] == input[..i] && Join(parts[1..], ' ') == input[i + 1..]
  {
    SplitAtFirst(input, ' ');
    var parts := Split(input, ' ');
    forall i | 0 <= i < |input| && input[i] == ' ' && ' ' !in input[..i]
      ensures parts[0] == input[..i] && Join(parts[1..], ' ') == input[i + 1..]
    {
      var n := |parts[0]|;
      assert n == i;
    }
  }

  /** The verb and argument of a raw command line, or None for a line that
      is empty or only white space. The verb is the lower-cased text of the
      trimmed line before its first space; the argument is everything after
      that space (extra spaces included), or "" when there is no space. */
  function ParseLine(rawInput: string): (r: Option<Parsed>)
    ensures r.None? <==> AllWhitespace(rawInput)
    ensures r.Some? ==> var input := Trim(rawInput);
              (' ' !in input ==> r.value == Parsed(Lower(input), ""))
              && forall i :: 0 <= i < |input| && input[i] == ' ' && ' ' !in input[..i]
                             ==> r.value == Parsed(Lower(input[..i]), input[i + 1..])
  {
    var input := Trim(rawInput);
    TrimEmpty(rawInput);
    if input == "" then None
    else
      var parts := Split(input, ' ');
      SplitAtFirst(input, ' ');
      SplitAtFirstSpace(input);
      Some(Parsed(Lower(parts[0]), Join(parts[1..], ' ')))
  }

  /** The first space-separated piece of a line, `parts[0]`. */
  function FirstToken(input: string): string {
    Split(input, ' ')[0]
  }

  /** The first piece of a split on spaces, a space and the rejoined
      remaining pieces give back the line, unless nothing remains. */
  lemma {:induction false} PiecesReassemble(input: string)
    ensures var parts := Split(input, ' ');
            var rest := Join(parts[1..], ' ');
            rest != "" ==> parts[0] + " " + rest == input
  {
    SplitAtFirst(input, ' ');
    var parts := Split(input, ' ');
    if |parts| > 1 {
      assert input == input[..|parts[0]|] + [input[|parts[0]|]] + input[|parts[0]| + 1..];
    }
  }

  /** The verb is the lower-cased first token, and the first token, a
      space and a non-empty argument put back together give the trimmed
      line. */
  lemma ParseReassembles(rawInput: string)
    requires ParseLine(rawInput).Some?
    ensures var p := ParseLine(rawInput).value;
            var tok := FirstToken(Trim(rawInput));
            p.verb == Lower(tok) && ' ' !in tok
            && (p.arg != "" ==> tok + " " + p.arg == Trim(rawInput))
  {
    TrimEmpty(rawInput);
    PiecesReassemble(Trim(rawInput));
  }

  /** If the pieces after the first rejoin to nothing although there are
      such pieces, the line ends in a space. */
  lemma {:induction false} EmptyRestEndsInSpace(input: string)
    ensures var parts := Split(input, ' ');
            |parts| > 1 && Join(parts[1..], ' ') == "" ==> |input| > 0 && input[|input| - 1] == ' '
  {
    SplitAtFirst(input, ' ');
  }

  /** An empty argument means the trimmed line was a single token: a
      trimmed line never ends in the space that would leave an empty
      argument behind. */
  lemma ParseSingleToken(rawInput: string)
    requires ParseLine(rawInput).Some? && ParseLine(rawInput).value.arg == ""
    ensures FirstToken(Trim(rawInput)) == Trim(rawInput)
  {
    var input := Trim(rawInput);
    TrimEmpty(rawInput);
    SplitAtFirst(input, ' ');
    EmptyRestEndsInSpace(input);
  }

  /** A line that is one word of lower-case letters is that verb with no
      argument. */
  lemma ParseBareWord(s: string)
    requires s != [] && forall k :: 0 <= k < |s| ==> 'a' <= s[k] <= 'z'
    ensures ParseLine(s) == Some(Parsed(s, ""))
  {
    TrimWord(s);
    LowerLetters(s);
    assert !IsWhitespace(s[0]);
    assert ' ' !in s;
  }

  /** The typed line "coffee" is the verb `coffee` alone. */
  lemma CoffeeParse()
    ensures ParseLine("coffee") == Some(Parsed("coffee", ""))
  {
    ParseBareWord("coffee");
  }

  /** The typed line "look" is the verb `look` alone. */
  lemma LookParse()
    ensures ParseLine("look") == Some(Parsed("look", ""))
  {
    ParseBareWord("look");
  }

  /** A word of lower-case letters has no white space to trim. */
  lemma TrimWord(s: string)
    requires s != [] && forall k :: 0 <= k < |s| ==> 'a' <= s[k] <= 'z'
    ensures Trim(s) == s
  {
    assert !IsWhitespace(s[0]) && !IsWhitespace(s[|s| - 1]);
  }

  /** Lower-case letters are left as they are. */
  lemma LowerLetters(s: string)
    requires forall k :: 0 <= k < |s| ==> 'a' <= s[k] <= 'z'
    ensures Lower(s) == s
  {
  }

  /** What a parsed line asks for: the `switch` of `handleCommand`. Verbs
      that need an argument and got none become `Prompt` ("Pick up what?"
      and the like). */
  datatype Command =
    | Help
    | Look
    | Search
    | Pickup(itemName: string)
    | Inventory
    | Use(itemName: string)
    | Attack(targetName: string)
    | Talk(npcName: string)
    | MoveTo(locationName: string)
    | Coffee
    | DebugStats
    | Quit
    | Prompt(verb: string)
    | Unknown

  function Interpret(p: Parsed): (c: Command)
    ensures c.Prompt? <==> p.arg == "" && p.verb in ["pickup", "pick", "use", "attack", "talk", "move", "go"]
    ensures c.Pickup? || c.Use? || c.Attack? || c.Talk? || c.MoveTo? ==> p.arg != ""
    ensures c.Pickup? ==> c.itemName == p.arg && p.verb in ["pickup", "pick"]
    ensures c.Use? ==> c.itemName == p.arg && p.verb == "use"
    ensures c.Attack? ==> c.targetName == p.arg && p.verb == "attack"
    ensures c.Talk? ==> c.npcName == p.arg && p.verb == "talk"
    ensures c.MoveTo? ==> c.locationName == p.arg && p.verb in ["move", "go"]
    ensures c == Coffee ==> p.verb == "coffee"
    ensures c == Quit ==> p.verb in ["quit", "exit"]
  {
    var v, arg := p.verb, p.arg;
    if v == "help" then Help
    else if v == "look" then Look
    else if v == "search" then Search
    else if v == "pickup" || v == "pick" then (if arg == "" then Prompt(v) else Pickup(arg))
    else if v == "inventory" then Inventory
    else if v == "use" then (if arg == "" then Prompt(v) else Use(arg))
    else if v == "attack" then (if arg == "" then Prompt(v) else Attack(arg))
    else if v == "talk" then (if arg == "" then Prompt(v) else Talk(arg))
    else if v == "move" || v == "go" then (if arg == "" then Prompt(v) else MoveTo(arg))
    else if v == "coffee" then Coffee
    else if v == "stats" then DebugStats
    else if v == "quit" || v == "exit" then Quit
    else Unknown
  }

  /** A verb outside the table, and only such a verb, is not understood. */
  lemma UnknownVerb(p: Parsed)
    ensures Interpret(p).Unknown? <==>
            p.verb !in ["help", "look", "search", "pickup", "pick", "inventory", "use",
                        "attack", "talk", "move", "go", "coffee", "stats", "quit", "exit"]
  {
  }

  /** Each verb of the table, given an argument where it needs one, is
      understood as its own command with that argument; the verbs that take
      no argument ignore whatever follows them. */
  lemma Dispatch(p: Parsed)
    ensures p.verb == "help" ==> Interpret(p) == Help
    ensures p.verb == "look" ==> Interpret(p) == Look
    ensures p.verb == "search" ==> Interpret(p) == Search
    ensures p.verb == "inventory" ==> Interpret(p) == Inventory
    ensures p.verb == "stats" ==> Interpret(p) == DebugStats
    ensures p.verb in ["pickup", "pick"] && p.arg != "" ==> Interpret(p) == Pickup(p.arg)
    ensures p.verb == "use" && p.arg != "" ==> Interpret(p) == Use(p.arg)
    ensures p.verb == "attack" && p.arg != "" ==> Interpret(p) == Attack(p.arg)
    ensures p.verb == "talk" && p.arg != "" ==> Interpret(p) == Talk(p.arg)
    ensures p.verb in ["move", "go"] && p.arg != "" ==> Interpret(p) == MoveTo(p.arg)
    ensures p.verb == "coffee" ==> Interpret(p) == Coffee
    ensures p.verb in ["quit", "exit"] ==> Interpret(p) == Quit
  {
  }

  /** The commands that only print something (help, look, search,
      inventory, talk, stats, a missing argument, an unknown verb). */
  predicate OnlyNarrates(c: Command) {
    c.Help? || c.Look? || c.Search? || c.Inventory? || c.Talk? || c.DebugStats? || c.Prompt? || c.Unknown?
  }
}
