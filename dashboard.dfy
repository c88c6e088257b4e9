/**
  The input handling of the Streamlit dashboard (streamlit_app.py): the check
  of the three required environment variables, the prompt taken from the chat
  box or an example button, its sanitising and lower-casing into one of three
  GraphQL query templates with the result limit of the chosen search mode, and
  the header typed out word by word above the results.

  The environment is a map from variable name to value; what the user typed,
  clicked and picked are arguments. Rendering, the query's execution and the
  ranking are outside the model.
*/
module Dashboard {
  import opened Wrappers
  import opened Strings

  /** ENV_VARS: the variables the dashboard needs, in the order they are checked. */
  const EnvVars: seq<string> := ["WEAVIATE_URL", "WCD_DEMO_RO_KEY", "OPENAI_API_KEY"]

  /** os.environ.get(name, ""): a variable that is not set reads as the empty string. */
  function Getenv(environ: map<string, string>, name: string): string
  {
    if name in environ then environ[name] else ""
  }

  /** The position of the first of names whose value is unset or empty, or |names| when there is none. */
  function FirstUnset(environ: map<string, string>, names: seq<string>): (j: nat)
    ensures j <= |names|
    ensures forall k :: 0 <= k < j ==> Getenv(environ, names[k]) != ""
    ensures j < |names| ==> Getenv(environ, names[j]) == ""
  {
    if names == [] || Getenv(environ, names[0]) == "" then 0 else 1 + FirstUnset(environ, names[1..])
  }

  /** What get_env_vars ends with: the variables it read, or the message it exits with. */
  datatype Env = Loaded(vars: map<string, string>) | Exited(message: string)

  /**
    get_env_vars: reads every name of ENV_VARS in order and exits with
    "<name> not set" at the first one that is unset or empty; otherwise returns
    each name mapped to its value. Its argument is never read: the loop walks
    the global list and the parameter's name is rebound to a fresh dict.
  */
  method GetEnvVars(envVarsArg: seq<string>, environ: map<string, string>) returns (r: Env)
    ensures r.Loaded? <==> forall k :: 0 <= k < |EnvVars| ==> Getenv(environ, EnvVars[k]) != ""
    ensures r.Loaded? ==>
      && r.vars.Keys == (set n | n in EnvVars)
      && forall n :: n in EnvVars ==> n in environ && r.vars[n] == environ[n] != ""
    ensures r.Exited? ==>
      var j := FirstUnset(environ, EnvVars);
      j < |EnvVars| && r.message == EnvVars[j] + " not set"
  {
    var envVars: map<string, string> := map[];
    for j := 0 to |EnvVars|
      invariant FirstUnset(environ, EnvVars) >= j
      invariant envVars.Keys == (set n | n in EnvVars[..j])
      invariant forall n :: n in EnvVars[..j] ==> n in environ && envVars[n] == environ[n] != ""
    {
      var name := EnvVars[j];
      var value := Getenv(environ, name);
      if value == "" {
        FirstUnsetAt(environ, EnvVars, j);
        return Exited(name + " not set");
      }
      envVars := envVars[name := value];
      assert EnvVars[..j + 1] == EnvVars[..j] + [name];
    }
    assert EnvVars[..|EnvVars|] == EnvVars;
    r := Loaded(envVars);
  }

  /** The first unset name is the one at j when every name before j is set and the one at j is not. */
  lemma FirstUnsetAt(environ: map<string, string>, names: seq<string>, j: nat)
    requires j < |names| && Getenv(environ, names[j]) == ""
    requires forall k :: 0 <= k < j ==> Getenv(environ, names[k]) != ""
    ensures FirstUnset(environ, names) == j
  {
  }

  /** The settings the dashboard starts with, or the message it exits with. */
  datatype Startup = Ready(url: string, apiKey: string, openaiKey: string) | Exit(message: string)

  /**
    The module-level start-up: get_env_vars(ENV_VARS), the three values read
    back out of its result, then a second check that any of them is empty.
    When get_env_vars returns, none is empty, so the second message is never
    the one the dashboard exits with.
  */
  method LoadSettings(environ: map<string, string>) returns (s: Startup)
    ensures s.Exit? <==> FirstUnset(environ, EnvVars) < |EnvVars|
    ensures s.Exit? ==> s.message == EnvVars[FirstUnset(environ, EnvVars)] + " not set"
    ensures s.Ready? ==>
      && s.url == Getenv(environ, "WEAVIATE_URL") != ""
      && s.apiKey == Getenv(environ, "WCD_DEMO_RO_KEY") != ""
      && s.openaiKey == Getenv(environ, "OPENAI_API_KEY") != ""
  {
    var env := GetEnvVars(EnvVars, environ);
    if env.Exited? {
      return Exit(env.message);
    }
    assert "WEAVIATE_URL" in EnvVars && "WCD_DEMO_RO_KEY" in EnvVars && "OPENAI_API_KEY" in EnvVars;
    var url := env.vars["WEAVIATE_URL"];
    var apiKey := env.vars["WCD_DEMO_RO_KEY"];
    var openaiKey := env.vars["OPENAI_API_KEY"];
    var unset := url == "" || apiKey == "" || openaiKey == "";
    s := if unset then Exit("Environment variables not set") else Ready(url, apiKey, openaiKey);
  }

  /** The example prompts on the three buttons, left to right. */
  const ExamplePrompts: seq<string> := [
    "Machine learning with pytorch",
    "MLOps engineer with 10 years of experience",
    "AI researcher at deepmind or similar"
  ]

  /** button_pressed: the prompt of the first clicked button, left to right, or "" when none was clicked. */
  function ButtonPressed(clicked: seq<bool>): (p: string)
    requires |clicked| == |ExamplePrompts|
    ensures p == "" <==> forall k :: 0 <= k < |clicked| ==> !clicked[k]
    ensures p != "" ==>
      exists k :: 0 <= k < |clicked| && clicked[k] && p == ExamplePrompts[k]
        && forall k' :: 0 <= k' < k ==> !clicked[k']
  {
    if clicked[0] then ExamplePrompts[0]
    else if clicked[1] then ExamplePrompts[1]
    else if clicked[2] then ExamplePrompts[2]
    else ""
  }

  /**
    `st.chat_input(...) or button_pressed`: the typed text when there is some,
    otherwise the pressed button's prompt; None when both are empty, and then
    nothing further happens.
  */
  function Prompt(chat: Option<string>, pressed: string): (p: Option<string>)
    ensures p.None? <==> (chat.None? || chat.value == "") && pressed == ""
    ensures p.Some? ==> p.value != "" && (p.value == pressed || chat == Some(p.value))
    ensures chat.Some? && chat.value != "" ==> p == chat
  {
    var text := if chat.Some? && chat.value != "" then chat.value else pressed;
    if text == "" then None else Some(text)
  }

  /**
    prompt.replace('"', "").replace("'", ""): the prompt without double and
    single quotes, every other character kept as often as it occurred.
  */
  function Sanitise(prompt: string): (r: string)
    ensures '"' !in r && '\'' !in r
    ensures forall c :: c != '"' && c != '\'' ==> multiset(r)[c] == multiset(prompt)[c]
  {
    var withoutDouble := Remove(prompt, '"');
    assert multiset(withoutDouble)['"'] == 0;
    Remove(withoutDouble, '\'')
  }

  /** Sanitising a concatenation sanitises each part, so the kept characters stay in their order. */
  lemma SanitiseAppend(a: string, b: string)
    ensures Sanitise(a + b) == Sanitise(a) + Sanitise(b)
  {
    RemoveAppend(a, b, '"');
    RemoveAppend(Remove(a, '"'), Remove(b, '"'), '\'');
  }

  /** A single character is dropped when it is a quote and kept otherwise. */
  lemma SanitiseSingle(x: char)
    ensures Sanitise([x]) == if x == '"' || x == '\'' then [] else [x]
  {
    RemoveSingle(x, '"');
    RemoveSingle(x, '\'');
    assert Remove([], '\'') == [];
  }

  /** A prompt without quotes is left as it is. */
  lemma SanitiseKeepsQuoteFree(prompt: string)
    requires '"' !in prompt && '\'' !in prompt
    ensures Sanitise(prompt) == prompt
  {
    RemoveAbsent(prompt, '"');
    RemoveAbsent(prompt, '\'');
  }

  /** A piece of a query template after str.format has unescaped its doubled braces. */
  datatype Piece = Lit(text: string) | LimitSlot | InputSlot

  /** template.format(input=input, limit_jobs=limit) */
  function Format(template: seq<Piece>, input: string, limit: nat): string
  {
    if template == [] then []
    else
      var first := match template[0]
        case Lit(text) => text
        case LimitSlot => Decimal(limit)
        case InputSlot => input;
      first + Format(template[1..], input, limit)
  }

  /** The text every template starts with, up to its limit. */
  const QueryHead: string := "\n" + "        {\n" + "            Get {\n" + "                " + "Linkedin_jobs(limit: "

  /** The head of the templates has no double quote. */
  lemma HeadHasNoQuote()
    ensures '"' !in QueryHead
  {
    assert '"' !in "        {\n";
    assert '"' !in "            Get {\n";
    assert '"' !in "                ";
    assert '"' !in "Linkedin_jobs(limit: ";
  }

  /** The text every template ends with, from the closing parenthesis of its arguments. */
  const QueryTail: string :=
    ") \n                {\n                    title\n                    job_id\n                    description\n"
    + "                    location\n                    company_name\n                    _additional {\n"
    + "                        id\n                        distance\n                        vector\n"
    + "                    }\n                }\n            }\n        }"

  /**
    The shape the three templates share: the limit, then the mode's own
    arguments up to an opening double quote, the input, a closing double
    quote, the rest of the mode's arguments and the common tail.
  */
  function Template(open: string, close: string): seq<Piece>
  {
    [Lit(QueryHead), LimitSlot, Lit(open + "\""), InputSlot, Lit("\"" + close + QueryTail)]
  }

  /** bm25_gql */
  const Bm25Gql: seq<Piece> := Template(Opening("BM25"), Closing("BM25"))

  /** vector_gql */
  const VectorGql: seq<Piece> := Template(Opening("Vector"), Closing("Vector"))

  /** hybrid_gql */
  const HybridGql: seq<Piece> := Template(Opening("Hybrid"), Closing("Hybrid"))

  /** What mode_descriptions holds for a search mode: its query template and its largest result limit. */
  datatype ModeInfo = ModeInfo(template: seq<Piece>, maxLimit: nat)

  /** mode_descriptions */
  const ModeDescriptions: map<string, ModeInfo> := map[
    "BM25" := ModeInfo(Bm25Gql, 30),
    "Vector" := ModeInfo(VectorGql, 15),
    "Hybrid" := ModeInfo(HybridGql, 15)
  ]

  /** The options of the search-mode radio, in order; index 2 is preselected. */
  const ModeOptions: seq<string> := ["BM25", "Vector", "Hybrid"]

  /**
    Every mode the radio offers has an entry in mode_descriptions, so the
    lookups for the slider and the template never fail; the preselected one is
    Hybrid, and the largest limits are 30 for BM25 and 15 for the others.
  */
  lemma ModesAreDescribed()
    ensures forall k :: 0 <= k < |ModeOptions| ==> ModeOptions[k] in ModeDescriptions
    ensures ModeOptions[2] == "Hybrid"
    ensures ModeDescriptions["BM25"].maxLimit == 30
    ensures ModeDescriptions["Vector"].maxLimit == 15 && ModeDescriptions["Hybrid"].maxLimit == 15
  {
  }

  /**
    The value of the limit slider (from 1 to the mode's largest limit,
    starting at 3): 3 until the user moves it, then the value it was moved to.
    The starting value is within range for every mode.
  */
  function SliderLimit(mode: string, moved: Option<int>): (limit: nat)
    requires mode in ModeDescriptions
    requires moved.Some? ==> 1 <= moved.value <= ModeDescriptions[mode].maxLimit
    ensures 1 <= limit <= ModeDescriptions[mode].maxLimit
    ensures moved.None? ==> limit == 3
    ensures moved.Some? ==> limit == moved.value
  {
    if moved.Some? then moved.value else 3
  }

  /**
    The query sent for a prompt: none when the sanitised prompt is empty;
    otherwise the mode's template filled with the limit and with the sanitised
    prompt stripped and lower-cased.
  */
  function BuildQuery(mode: string, limit: nat, prompt: string): (q: Option<string>)
    requires mode in ModeDescriptions
    ensures q.None? <==> Sanitise(prompt) == ""
  {
    var s := Sanitise(prompt);
    if s == "" then None else Some(Format(ModeDescriptions[mode].template, Lower(Strip(s)), limit))
  }

  /** The input of every query has no double-quote character. */
  lemma QueryInputHasNoQuotes(prompt: string)
    ensures '"' !in Lower(Strip(Sanitise(prompt)))
  {
    StripLowerKeeps(Sanitise(prompt), '"');
  }

  /** A prompt of whitespace only survives sanitising, so it still sends a query, with an empty input. */
  lemma BlankPromptQueriesEmpty(mode: string, limit: nat, prompt: string)
    requires mode in ModeDescriptions
    requires prompt != [] && forall i :: 0 <= i < |prompt| ==> IsSpace(prompt[i])
    ensures BuildQuery(mode, limit, prompt) == Some(Format(ModeDescriptions[mode].template, "", limit))
  {
    assert '"' !in prompt && '\'' !in prompt by {
      assert !IsSpace('"') && !IsSpace('\'');
    }
    SanitiseKeepsQuoteFree(prompt);
    StripAllSpace(prompt);
    assert Lower([]) == [];
  }

  /** The position of the first c in s. */
  function IndexOf(s: string, c: char): (i: nat)
    requires c in s
    ensures i < |s| && s[i] == c && c !in s[..i]
  {
    if s[0] == c then 0
    else
      assert s == [s[0]] + s[1..];
      var i := 1 + IndexOf(s[1..], c);
      assert s[..i] == [s[0]] + s[1..][..i - 1];
      i
  }

  /** The first c is the one at i when none comes before it. */
  lemma {:induction false} IndexOfAt(s: string, c: char, i: nat)
    requires i < |s| && s[i] == c && c !in s[..i]
    ensures IndexOf(s, c) == i
  {
    if i > 0 {
      assert s[..i][0] == s[0];
      assert s[1..][..i - 1] == s[..i][1..];
      IndexOfAt(s[1..], c, i - 1);
    }
  }

  /** The text between the first two double-quote characters of s, if it has two; backslashes escape nothing here. */
  function QuotedText(s: string): Option<string>
  {
    if '"' !in s then None
    else
      var rest := s[IndexOf(s, '"') + 1..];
      if '"' !in rest then None else Some(rest[..IndexOf(rest, '"')])
  }

  /** Text without quotes, put between an opening quote and a text starting with a quote, is the first quoted text. */
  lemma QuotedTextOf(a: string, x: string, b: string)
    requires '"' !in a && '"' !in x && b != [] && b[0] == '"'
    ensures QuotedText(a + "\"" + x + b) == Some(x)
  {
    var s := a + "\"" + x + b;
    assert s[..|a|] == a;
    IndexOfAt(s, '"', |a|);
    var rest := s[|a| + 1..];
    assert rest == x + b;
    assert rest[..|x|] == x;
    IndexOfAt(rest, '"', |x|);
  }

  lemma FormatCons(p: Piece, t: seq<Piece>, input: string, limit: nat)
    ensures Format([p] + t, input, limit) == Format([p], input, limit) + Format(t, input, limit)
  {
    assert ([p] + t)[1..] == t;
    assert [p][1..] == [];
  }

  /** A template of the common shape filled in, piece by piece. */
  lemma FormatShape(head: string, open: string, after: string, input: string, limit: nat)
    ensures Format([Lit(head), LimitSlot, Lit(open), InputSlot, Lit(after)], input, limit)
      == head + Decimal(limit) + open + input + after
  {
    var t := [Lit(head), LimitSlot, Lit(open), InputSlot, Lit(after)];
    FormatCons(Lit(after), [], input, limit);
    FormatCons(InputSlot, [Lit(after)], input, limit);
    FormatCons(Lit(open), [InputSlot, Lit(after)], input, limit);
    FormatCons(LimitSlot, [Lit(open), InputSlot, Lit(after)], input, limit);
    FormatCons(Lit(head), [LimitSlot, Lit(open), InputSlot, Lit(after)], input, limit);
    assert [Lit(head)] + [LimitSlot, Lit(open), InputSlot, Lit(after)] == t;
  }

  /**
    When the mode's own arguments before the input have no double quote and
    the input has none, the first quoted text of the filled-in template is
    the input.
  */
  lemma TemplateQuotesInput(open: string, close: string, input: string, limit: nat)
    requires '"' !in open && '"' !in input
    ensures QuotedText(Format(Template(open, close), input, limit)) == Some(input)
  {
    var d := Decimal(limit);
    assert '"' !in d;
    HeadHasNoQuote();
    var after := "\"" + close + QueryTail;
    FormatShape(QueryHead, open + "\"", after, input, limit);
    assert QueryHead + d + (open + "\"") + input + after == (QueryHead + d + open) + "\"" + input + after;
    QuotedTextOf(QueryHead + d + open, input, after);
  }

  /**
    In every query the dashboard sends, the text between the first two
    double-quote characters is exactly the stripped, lower-cased, sanitised
    prompt. Escape sequences are not read: a prompt ending in a backslash
    still lies between those two characters.
  */
  lemma QueryQuotesPrompt(mode: string, limit: nat, prompt: string)
    requires mode in ModeDescriptions && BuildQuery(mode, limit, prompt).Some?
    ensures QuotedText(BuildQuery(mode, limit, prompt).value) == Some(Lower(Strip(Sanitise(prompt))))
  {
    var input := Lower(Strip(Sanitise(prompt)));
    QueryInputHasNoQuotes(prompt);
    OpeningsHaveNoQuote(mode);
    assert ModeDescriptions[mode].template == Template(Opening(mode), Closing(mode));
    TemplateQuotesInput(Opening(mode), Closing(mode), input, limit);
  }

  /**
    The query sent for a prompt that survives sanitising, written out: the
    shared head, the limit in decimal (limit_jobs), the chosen mode's own
    arguments with the stripped, lower-cased prompt between two double quotes,
    and the shared tail.
  */
  lemma QueryText(mode: string, limit: nat, prompt: string)
    requires mode in ModeDescriptions && Sanitise(prompt) != ""
    ensures BuildQuery(mode, limit, prompt) == Some(
      QueryHead + Decimal(limit) + Opening(mode) + "\"" + Lower(Strip(Sanitise(prompt))) + "\""
      + Closing(mode) + QueryTail)
  {
    var input := Lower(Strip(Sanitise(prompt)));
    assert ModeDescriptions[mode].template == Template(Opening(mode), Closing(mode));
    TemplateText(Opening(mode), Closing(mode), input, limit);
  }

  /** A mode's own arguments before the opening quote of its input. */
  function Opening(mode: string): string
  {
    if mode == "BM25" then ", bm25: { query: "
    else if mode == "Vector" then ", nearText: { concepts: ["
    else ", hybrid: { query: "
  }

  /** A mode's own arguments after the closing quote of its input. */
  function Closing(mode: string): string
  {
    if mode == "BM25" then " }"
    else if mode == "Vector" then "] }"
    else " alpha:0.5 }"
  }

  /** A template of the shared shape, filled in. */
  lemma TemplateText(open: string, close: string, input: string, limit: nat)
    ensures Format(Template(open, close), input, limit)
      == QueryHead + Decimal(limit) + open + "\"" + input + "\"" + close + QueryTail
  {
    FormatShape(QueryHead, open + "\"", "\"" + close + QueryTail, input, limit);
  }

  /** The arguments before each template's input have no double quote. */
  lemma OpeningsHaveNoQuote(mode: string)
    ensures '"' !in Opening(mode)
  {
    assert '"' !in ", nearText: " && '"' !in "{ concepts: [";
    assert ", nearText: { concepts: [" == ", nearText: " + "{ concepts: [";
  }

  /** f"Here are the results from the {mode} search:", the header when the results carry no generated text. */
  function FirstResponse(mode: string, grouped: Option<string>): string
  {
    if grouped.Some? then grouped.value else "Here are the results from the " + mode + " search:"
  }

  /** The default header splits into its eight words, the mode's name the seventh. */
  lemma DefaultHeaderWords(mode: string)
    requires IsWord(mode)
    ensures Split(FirstResponse(mode, None)) == ["Here", "are", "the", "results", "from", "the", mode, "search:"]
  {
    LiteralWords();
    var t := mode + " " + "search:";
    SplitWord("search:");
    SplitCons(mode, "search:");
    assert Split(t) == [mode, "search:"];
    var u := "results from the " + t;
    TailText(t);
    SplitThree("results", "from", "the", t);
    assert Split(u) == ["results", "from", "the", mode, "search:"];
    HeaderHalves(mode);
    assert FirstResponse(mode, None) == "Here are the " + u;
    HeadText(u);
    SplitThree("Here", "are", "the", u);
  }

  /** The default header cut after its third word and before the mode's name. */
  lemma HeaderHalves(mode: string)
    ensures FirstResponse(mode, None) == "Here are the " + ("results from the " + (mode + " " + "search:"))
  {
    assert " search:" == " " + "search:";
    assert "Here are the results from the " == "Here are the " + "results from the ";
  }

  /** Three words, each followed by one space, then the rest of the text. */
  function Three(a: string, b: string, c: string, rest: string): string
  {
    a + " " + (b + " " + (c + " " + rest))
  }

  lemma HeadText(rest: string)
    ensures "Here are the " + rest == Three("Here", "are", "the", rest)
  {
    assert "Here are the " == "Here" + " " + "are" + " " + "the" + " ";
  }

  lemma TailText(rest: string)
    ensures "results from the " + rest == Three("results", "from", "the", rest)
  {
    assert "results from the " == "results" + " " + "from" + " " + "the" + " ";
  }

  lemma SplitThree(a: string, b: string, c: string, rest: string)
    requires IsWord(a) && IsWord(b) && IsWord(c)
    ensures Split(Three(a, b, c, rest)) == [a, b, c] + Split(rest)
  {
    SplitCons(c, rest);
    SplitCons(b, c + " " + rest);
    SplitCons(a, b + " " + (c + " " + rest));
  }

  /** The fixed words of the default header hold no whitespace. */
  lemma LiteralWords()
    ensures IsWord("Here") && IsWord("are") && IsWord("the") && IsWord("results")
    ensures IsWord("from") && IsWord("search:")
  {
    PrintableWord("Here");
    PrintableWord("are");
    PrintableWord("the");
    PrintableWord("results");
    PrintableWord("from");
    PrintableWord("search:");
  }

  /**
    The header loop: full_response collects each whitespace-separated word of
    first_response followed by one space, in order.
  */
  method TypeHeader(mode: string, grouped: Option<string>) returns (fullResponse: string)
    ensures fullResponse == JoinSpaced(Split(FirstResponse(mode, grouped)))
  {
    var firstResponse := FirstResponse(mode, grouped);
    fullResponse := "";
    var chunks := Split(firstResponse);
    for j := 0 to |chunks|
      invariant fullResponse == JoinSpaced(chunks[..j])
    {
      JoinSpacedSnoc(chunks[..j], chunks[j]);
      assert chunks[..j + 1] == chunks[..j] + [chunks[j]];
      fullResponse := fullResponse + chunks[j] + " ";
    }
    assert chunks[..|chunks|] == chunks;
  }

  /** The typed header has the same words as the first response: splitting it again gives them back. */
  lemma HeaderKeepsWords(firstResponse: string)
    ensures Split(JoinSpaced(Split(firstResponse))) == Split(firstResponse)
  {
    SplitWords(firstResponse);
    SplitJoinSpaced(Split(firstResponse));
  }
}
