/**
  The enhanced interpreter (`processEnhancedCommand` and its handlers in
  src/utils/masterPromptingSystem.ts). A line is lower-cased, trimmed and cut at every
  single space; `macro` goes to the macro handler, any other first word is looked up by
  name or alias and handed to its category's handler, which picks a canned response from
  the later words. The macro handler is a stateless mock: it records and replays nothing.
 */
module Interpreter {
  import opened Options
  import opened Text
  import opened Registry
  import opened Responses
  import opened Suggestions

  /** The words of a line: `command.toLowerCase().trim().split(' ')`. */
  function Words(command: string): (parts: seq<string>)
    ensures |parts| >= 1
  {
    Split(Trim(Lower(command)), ' ')
  }

  /** `parts[i] || ''`: a missing word reads as the empty string. */
  function Arg(parts: seq<string>, i: nat): string {
    if i < |parts| then parts[i] else ""
  }

  // ---------------------------------------------------------------- handlers

  function MacroCommand(parts: seq<string>): (r: Response)
    ensures r.status != Error && !r.data.Unrecognised?
  {
    var sub := Arg(parts, 1);
    if sub == "record" then
      var name := if Arg(parts, 2) != "" then Arg(parts, 2) else "unnamed_macro";
      Response("Started recording macro \"" + name + "\". Type \"macro stop\" to finish recording.",
               Info, RecordingStarted(name))
    else if sub == "stop" then
      Response("Macro recording stopped and saved.", Success, RecordingStopped)
    else if sub == "run" then
      var name := Arg(parts, 2);
      if name == "" then Response("Please specify a macro name to run.", Warning, NoData)
      else Response("Executed macro \"" + name + "\" with 3 commands.", Success, MacroExecuted(3))
    else if sub == "list" then
      Response("Available macros:", Info,
               MacroListing([MacroSummary("daily_check", 3), MacroSummary("security_scan", 2)]))
    else
      Response("Unknown macro command. Available options: record, stop, run, list", Warning, NoData)
  }

  function SystemCommand(parts: seq<string>): (r: Response)
    ensures r.status != Error && !r.data.Unrecognised?
  {
    var sub := Arg(parts, 1);
    if sub == "network" then
      Response("Network systems operating at optimal efficiency.", Success,
               NetworkHealth("optimal", "12.7 TB/s", "0.8ms", 42))
    else if sub == "security" then
      Response("Security systems active. Threat assessment ongoing.", Info,
               SecurityHealth("vigilant", "minimal", 7, "none detected"))
    else if sub == "resources" then
      Response("System resources are balanced and available.", Success, ResourceLevels(32, 47, 28, 63))
    else AllSystemsNominal
  }

  /** The confirmation of an explicit allocation, with the amount as a template literal shows it. */
  function AllocatedMessage(resource: string, amount: ParsedInt): string {
    "Allocated " + ShowParsed(amount) + "% to " + resource + " systems."
  }

  function ResourceCommand(parts: seq<string>): (r: Response)
    ensures r.status != Error && !r.data.Unrecognised?
  {
    var resource := Arg(parts, 1);
    var raw := Arg(parts, 2);
    if resource != "" && raw != "" then
      var amount := ParseInt(raw);
      Response(AllocatedMessage(resource, amount), Success, Allocation(resource, amount))
    else AllocationOptimisedResponse
  }

  function SecurityCommand(parts: seq<string>): (r: Response)
    ensures r.status != Error && !r.data.Unrecognised?
  {
    var sub := Arg(parts, 1);
    if sub == "scan" then
      Response("Security scan complete. No vulnerabilities detected.", Success, ScanReport(0))
    else if sub == "threat-level" then
      Response("Current threat level: MINIMAL", Info,
               ThreatReport("minimal", ["No unusual network activity", "All authentication systems secure",
                                        "Quantum encryption stable"]))
    else SecurityActive
  }

  function NetworkCommand(parts: seq<string>): (r: Response)
    ensures r.status != Error && !r.data.Unrecognised?
  {
    var sub := Arg(parts, 1);
    if sub == "optimize" then
      Response("Network routes optimized for maximum throughput.", Success, RoutesOptimised("23%"))
    else if sub == "diagram" then
      Response("Generating network topology visualization.", Info, TopologyView(42, 128))
    else TopologyMapped
  }

  /** The category groups of the bare `help` answer. */
  function HelpGroups(): seq<CategoryGroup> {
    GroupsOf(AllCategories)
  }

  /** One group per listed category, titled by the category, holding its names in registry order. */
  function GroupsOf(cs: seq<Category>): seq<CategoryGroup> {
    if cs == [] then []
    else [CategoryGroup(CategoryTitle(cs[0]), NamesIn(Definitions, cs[0]))] + GroupsOf(cs[1..])
  }

  function CategoryTitle(c: Category): string {
    match c
    case System => "System"
    case Resource => "Resource"
    case Security => "Security"
    case Network => "Network"
    case Help => "Help"
    case Automation => "Automation"
  }

  /** All the names the groups list, counted with multiplicity. */
  function Listed(gs: seq<CategoryGroup>): multiset<string> {
    if gs == [] then multiset{} else multiset(gs[0].commands) + Listed(gs[1..])
  }

  function HelpCommand(parts: seq<string>): (r: Response)
    ensures r.status != Error && !r.data.Unrecognised?
  {
    var topic := Arg(parts, 1);
    if topic != "" then
      match Lookup(topic)
      case Some(d) =>
        Response("Help for command: " + d.name, Info,
                 CommandHelp(d.name, d.description, d.usage, d.examples, d.aliases))
      case None =>
        Response("No help available for: \"" + topic + "\"", Warning, NoData)
    else
      Response("MCP Command System - Available Categories", Info,
               CategoryListing(HelpGroups(), "Type \"help [command]\" for detailed information on a specific command."))
  }

  /** The fallback for a first word no handler takes. The message echoes the line as given;
      the suggestion block is absent exactly when there is nothing to suggest. */
  function NotRecognised(command: string, lower: string, history: seq<HistoryItem>): (r: Response)
    ensures r.status == Warning && r.data.Unrecognised?
    ensures r.message == "Command not recognized: \"" + command + "\"."
    ensures r.data.suggestions.None? <==> Suggest(lower, history) == []
    ensures r.data.suggestions.Some? ==>
              r.data.suggestions.value == SuggestionBlock("Did you mean:", Suggest(lower, history))
  {
    var suggestions := Suggest(lower, history);
    Response("Command not recognized: \"" + command + "\".", Warning,
             Unrecognised(if |suggestions| > 0 then Some(SuggestionBlock("Did you mean:", suggestions)) else None))
  }

  // ---------------------------------------------------------------- dispatch

  /** The handler a category is routed to; `None` for the category the `switch` has no case for. */
  function Handler(c: Category, parts: seq<string>): (r: Option<Response>)
    ensures r.Some? <==> c != Automation
    ensures r.Some? ==> r.value.status != Error && !r.value.data.Unrecognised?
  {
    match c
    case System => Some(SystemCommand(parts))
    case Resource => Some(ResourceCommand(parts))
    case Security => Some(SecurityCommand(parts))
    case Network => Some(NetworkCommand(parts))
    case Help => Some(HelpCommand(parts))
    case Automation => None
  }

  /** The answer of the handler a line's words are routed to, if some handler takes them. */
  function Route(parts: seq<string>): (r: Option<Response>)
    requires |parts| >= 1
    ensures r.Some? ==> r.value.status != Error && !r.value.data.Unrecognised?
    ensures r.Some? <==>
              parts[0] == "macro" || (Lookup(parts[0]).Some? && Lookup(parts[0]).value.category != Automation)
  {
    if parts[0] == "macro" then Some(MacroCommand(parts))
    else
      match Lookup(parts[0])
      case Some(d) => Handler(d.category, parts)
      case None => None
  }

  /** `processEnhancedCommand`. Like the keyword interpreter, it never answers with an error. */
  function Process(command: string, history: seq<HistoryItem>): (r: Response)
    ensures r.status != Error
  {
    var lower := Trim(Lower(command));
    match Route(Split(lower, ' '))
    case Some(r) => r
    case None => NotRecognised(command, lower, history)
  }

  /** Every handler reads only the words after the first. */
  lemma HandlersIgnoreFirstWord(c: Category, p1: seq<string>, p2: seq<string>)
    requires |p1| >= 1 && |p2| >= 1 && p1[1..] == p2[1..]
    ensures Handler(c, p1) == Handler(c, p2)
  {
    SameLaterWord(p1, p2, 1);
    SameLaterWord(p1, p2, 2);
  }

  lemma SameLaterWord(p1: seq<string>, p2: seq<string>, i: nat)
    requires |p1| >= 1 && |p2| >= 1 && p1[1..] == p2[1..] && i >= 1
    ensures Arg(p1, i) == Arg(p2, i)
  {
    if i < |p1| { assert p1[i] == p1[1..][i - 1]; }
    if i < |p2| { assert p2[i] == p2[1..][i - 1]; }
  }

  // ---------------------------------------------------------------- properties

  /** A line gets its handler's answer when some handler takes its words, the not-recognised
      answer otherwise. */
  lemma ProcessFollowsRoute(command: string, history: seq<HistoryItem>)
    ensures var route := Route(Words(command));
      && (route.Some? ==> Process(command, history) == route.value)
      && (route.None? ==> Process(command, history) == NotRecognised(command, Trim(Lower(command)), history))
  {
  }

  /** Letter case and surrounding whitespace do not change the words of a line. */
  lemma WordsIgnoreCaseAndPadding(c1: string, c2: string, pre: string, post: string)
    requires Lower(c1) == Lower(c2)
    requires AllSpace(pre) && AllSpace(post)
    ensures Words(pre + c1 + post) == Words(c2)
  {
    var w := pre + c1 + post;
    var lw := Lower(w);
    assert lw == Lower(pre) + Lower(c1) + Lower(post);
    forall i | 0 <= i < |pre| ensures IsSpace(Lower(pre)[i]) { LowerKeepsSpaces(pre[i]); }
    forall i | 0 <= i < |post| ensures IsSpace(Lower(post)[i]) { LowerKeepsSpaces(post[i]); }
    TrimIgnoresPadding(Lower(pre), Lower(c1), Lower(post));
  }

  /** A line whose first word is a name or alias of a System, Resource, Security, Network or
      Help entry gets the same answer whichever of that entry's names or aliases it starts
      with, and whatever the history. */
  lemma SpellingsOfACommandAgree(i: nat, c1: string, c2: string, h1: seq<HistoryItem>, h2: seq<HistoryItem>)
    requires i < |Definitions| && Definitions[i].category != Automation
    requires Denotes(Definitions[i], Words(c1)[0]) && Denotes(Definitions[i], Words(c2)[0])
    requires Words(c1)[1..] == Words(c2)[1..]
    ensures Process(c1, h1) == Process(c2, h2)
  {
    var p1, p2 := Words(c1), Words(c2);
    RouteOfHandledEntry(i, p1);
    RouteOfHandledEntry(i, p2);
    HandlersIgnoreFirstWord(Definitions[i].category, p1, p2);
    ProcessFollowsRoute(c1, h1);
    ProcessFollowsRoute(c2, h2);
  }

  /** Words starting with a name or alias of an entry go to that entry's category handler. */
  lemma RouteOfHandledEntry(i: nat, parts: seq<string>)
    requires i < |Definitions| && |parts| >= 1 && Denotes(Definitions[i], parts[0])
    ensures Definitions[i].category != Automation ==> Route(parts) == Handler(Definitions[i].category, parts)
    ensures Definitions[i].category == Automation && parts[0] != "macro" ==> Route(parts).None?
  {
    LookupFindsOwner(i, parts[0]);
    if parts[0] == "macro" {
      TokenOwnerUnique(i, 5, "macro");
    }
  }

  /** `macro` is routed to the macro handler before any lookup, and that handler neither reads
      the history nor keeps anything between calls. */
  lemma MacroComesFirst(command: string, h1: seq<HistoryItem>, h2: seq<HistoryItem>)
    requires Words(command)[0] == "macro"
    ensures Process(command, h1) == MacroCommand(Words(command))
    ensures Process(command, h1) == Process(command, h2)
  {
  }

  /** The macro handler's answers, by sub-verb. Running any named macro reports three commands,
      whatever was recorded before, because nothing ever is. */
  lemma MacroVerbs(command: string, history: seq<HistoryItem>)
    requires Words(command)[0] == "macro"
    ensures var parts := Words(command);
      var r := Process(command, history);
      && (Arg(parts, 1) == "record" ==>
            r.status == Info && r.data == RecordingStarted(if Arg(parts, 2) == "" then "unnamed_macro" else Arg(parts, 2)))
      && (Arg(parts, 1) == "stop" ==> r.status == Success && r.data == RecordingStopped)
      && (Arg(parts, 1) == "run" && Arg(parts, 2) == "" ==> r.status == Warning && r.data == NoData)
      && (Arg(parts, 1) == "run" && Arg(parts, 2) != "" ==> r.status == Success && r.data == MacroExecuted(3))
      && (Arg(parts, 1) == "list" ==> r.status == Info && r.data.MacroListing?)
      && (Arg(parts, 1) !in {"record", "stop", "run", "list"} ==> r.status == Warning && r.data == NoData)
  {
    ProcessFollowsRoute(command, history);
    MacroVerbsOf(Words(command));
  }

  lemma MacroVerbsOf(parts: seq<string>)
    requires |parts| >= 1 && parts[0] == "macro"
    ensures var r := Route(parts).value;
      && (Arg(parts, 1) == "record" ==>
            r.status == Info && r.data == RecordingStarted(if Arg(parts, 2) == "" then "unnamed_macro" else Arg(parts, 2)))
      && (Arg(parts, 1) == "stop" ==> r.status == Success && r.data == RecordingStopped)
      && (Arg(parts, 1) == "run" && Arg(parts, 2) == "" ==> r.status == Warning && r.data == NoData)
      && (Arg(parts, 1) == "run" && Arg(parts, 2) != "" ==> r.status == Success && r.data == MacroExecuted(3))
      && (Arg(parts, 1) == "list" ==> r.status == Info && r.data.MacroListing?)
      && (Arg(parts, 1) !in {"record", "stop", "run", "list"} ==> r.status == Warning && r.data == NoData)
  {
  }

  /** `status` (or `health`, `diagnostics`) answers by its second word: a network, security or
      resource report, and the overall status for anything else, a missing word included. */
  lemma SystemAnswers(i: nat, command: string, history: seq<HistoryItem>, parts: seq<string>)
    requires parts == Words(command)
    requires i < |Definitions| && Definitions[i].category == System && Denotes(Definitions[i], parts[0])
    ensures var r := Process(command, history);
      && (Arg(parts, 1) == "network" ==> r.status == Success && r.data.NetworkHealth?)
      && (Arg(parts, 1) == "security" ==> r.status == Info && r.data.SecurityHealth?)
      && (Arg(parts, 1) == "resources" ==> r.status == Success && r.data.ResourceLevels?)
      && (Arg(parts, 1) !in {"network", "security", "resources"} ==> r == AllSystemsNominal)
  {
    RouteOfHandledEntry(i, parts);
    ProcessFollowsRoute(command, history);
    SystemAnswersOf(parts);
  }

  lemma SystemAnswersOf(parts: seq<string>)
    ensures var r := SystemCommand(parts);
      && (Arg(parts, 1) == "network" ==> r.status == Success && r.data.NetworkHealth?)
      && (Arg(parts, 1) == "security" ==> r.status == Info && r.data.SecurityHealth?)
      && (Arg(parts, 1) == "resources" ==> r.status == Success && r.data.ResourceLevels?)
      && (Arg(parts, 1) !in {"network", "security", "resources"} ==> r == AllSystemsNominal)
  {
  }

  /** `security` (or `secure`, `threat`, `protection`) answers `scan` with a clean scan report,
      `threat-level` with the threat factors, and anything else with the overview. */
  lemma SecurityAnswers(i: nat, command: string, history: seq<HistoryItem>, parts: seq<string>)
    requires parts == Words(command)
    requires i < |Definitions| && Definitions[i].category == Security && Denotes(Definitions[i], parts[0])
    ensures var r := Process(command, history);
      && (Arg(parts, 1) == "scan" ==> r.status == Success && r.data == ScanReport(0))
      && (Arg(parts, 1) == "threat-level" ==> r.status == Info && r.data.ThreatReport? && |r.data.factors| == 3)
      && (Arg(parts, 1) !in {"scan", "threat-level"} ==> r == SecurityActive)
  {
    RouteOfHandledEntry(i, parts);
    ProcessFollowsRoute(command, history);
    SecurityAnswersOf(parts);
  }

  lemma SecurityAnswersOf(parts: seq<string>)
    ensures var r := SecurityCommand(parts);
      && (Arg(parts, 1) == "scan" ==> r.status == Success && r.data == ScanReport(0))
      && (Arg(parts, 1) == "threat-level" ==> r.status == Info && r.data.ThreatReport? && |r.data.factors| == 3)
      && (Arg(parts, 1) !in {"scan", "threat-level"} ==> r == SecurityActive)
  {
  }

  /** `network` (or `connect`, `topology`, `route`) answers `optimize` with the optimisation
      report, `diagram` with the topology view, and anything else with the mapped topology. */
  lemma NetworkAnswers(i: nat, command: string, history: seq<HistoryItem>, parts: seq<string>)
    requires parts == Words(command)
    requires i < |Definitions| && Definitions[i].category == Network && Denotes(Definitions[i], parts[0])
    ensures var r := Process(command, history);
      && (Arg(parts, 1) == "optimize" ==> r.status == Success && r.data.RoutesOptimised?)
      && (Arg(parts, 1) == "diagram" ==> r.status == Info && r.data.TopologyView?)
      && (Arg(parts, 1) !in {"optimize", "diagram"} ==> r == TopologyMapped)
  {
    RouteOfHandledEntry(i, parts);
    ProcessFollowsRoute(command, history);
    NetworkAnswersOf(parts);
  }

  lemma NetworkAnswersOf(parts: seq<string>)
    ensures var r := NetworkCommand(parts);
      && (Arg(parts, 1) == "optimize" ==> r.status == Success && r.data.RoutesOptimised?)
      && (Arg(parts, 1) == "diagram" ==> r.status == Info && r.data.TopologyView?)
      && (Arg(parts, 1) !in {"optimize", "diagram"} ==> r == TopologyMapped)
  {
  }

  /** `script`, `automate` and `batch` resolve to the Automation entry, which the dispatch has
      no case for, so they fall through to the not-recognised answer. */
  lemma AutomationAliasesFallThrough(command: string, history: seq<HistoryItem>)
    requires Words(command)[0] in {"script", "automate", "batch"}
    ensures Process(command, history) == NotRecognised(command, Trim(Lower(command)), history)
  {
    var parts := Words(command);
    assert Denotes(Definitions[5], parts[0]);
    RouteOfHandledEntry(5, parts);
    ProcessFollowsRoute(command, history);
  }

  /** Exactly the lines whose first word is neither `macro` nor a name or alias of a handled
      entry get the not-recognised answer. */
  lemma UnrecognisedExactlyWhenUnhandled(command: string, history: seq<HistoryItem>)
    ensures var base := Words(command)[0];
      var handled := base == "macro" || (Lookup(base).Some? && Lookup(base).value.category != Automation);
      Process(command, history).data.Unrecognised? <==> !handled
  {
    ProcessFollowsRoute(command, history);
  }

  /** `allocate <r> <a>` (or `resource`/`assign`) reports `parseInt(a)` as written, `NaN`
      included; a missing `r` or `a` gives the default optimisation answer. */
  lemma AllocationReportsParsedAmount(i: nat, command: string, history: seq<HistoryItem>, parts: seq<string>)
    requires parts == Words(command)
    requires i < |Definitions| && Definitions[i].category == Resource && Denotes(Definitions[i], parts[0])
    ensures var r := Process(command, history);
      && (Arg(parts, 1) != "" && Arg(parts, 2) != "" ==>
            r == Response(AllocatedMessage(Arg(parts, 1), ParseInt(Arg(parts, 2))), Success,
                          Allocation(Arg(parts, 1), ParseInt(Arg(parts, 2)))))
      && (Arg(parts, 1) == "" || Arg(parts, 2) == "" ==> r == AllocationOptimisedResponse)
  {
    RouteOfHandledEntry(i, parts);
    ProcessFollowsRoute(command, history);
  }

  /** An amount written as an integer is reported as that integer. */
  lemma AllocationAmountRoundTrip(command: string, history: seq<HistoryItem>, parts: seq<string>, n: int)
    requires parts == Words(command)
    requires parts[0] == "allocate" && |parts| >= 3 && parts[1] != "" && parts[2] == IntToString(n)
    ensures Process(command, history) == Response(AllocatedMessage(parts[1], Num(n)), Success, Allocation(parts[1], Num(n)))
  {
    ProcessFollowsRoute(command, history);
    ParseIntRoundTrip(n);
    AllocationRouteOf(parts, Num(n));
  }

  /** An amount that starts with a letter is reported as `NaN`. */
  lemma AllocationOfWordIsNaN(command: string, history: seq<HistoryItem>, parts: seq<string>)
    requires parts == Words(command)
    requires parts[0] == "allocate" && |parts| >= 3 && parts[1] != ""
    requires parts[2] != "" && 'a' <= parts[2][0] <= 'z'
    ensures Process(command, history) == Response(AllocatedMessage(parts[1], NaN), Success, Allocation(parts[1], NaN))
  {
    ProcessFollowsRoute(command, history);
    LetterIsNaN(parts[2]);
    AllocationRouteOf(parts, NaN);
  }

  lemma AllocationRouteOf(parts: seq<string>, amount: ParsedInt)
    requires |parts| >= 3 && parts[0] == "allocate" && parts[1] != "" && parts[2] != ""
    requires ParseInt(parts[2]) == amount
    ensures Route(parts) == Some(Response(AllocatedMessage(parts[1], amount), Success, Allocation(parts[1], amount)))
  {
    AllocateDenotesResource(parts[0]);
    RouteOfHandledEntry(1, parts);
    assert Arg(parts, 1) == parts[1] && Arg(parts, 2) == parts[2];
    ResourceAnswersOf(parts);
  }

  lemma ResourceAnswersOf(parts: seq<string>)
    ensures Arg(parts, 1) != "" && Arg(parts, 2) != "" ==>
              ResourceCommand(parts) == Response(AllocatedMessage(Arg(parts, 1), ParseInt(Arg(parts, 2))), Success,
                                                 Allocation(Arg(parts, 1), ParseInt(Arg(parts, 2))))
  {
  }

  lemma AllocateDenotesResource(t: string)
    requires t == "allocate"
    ensures Definitions[1].category == Resource && Denotes(Definitions[1], t)
  {
  }

  lemma LetterIsNaN(a: string)
    requires a != "" && 'a' <= a[0] <= 'z'
    ensures ParseInt(a) == NaN
  {
    assert SkipSpaces(a, 0) == 0;
  }

  /** `help <t>` explains the entry `t` names or aliases, by its canonical name. */
  lemma HelpResolvesTopics(i: nat, j: nat, command: string, history: seq<HistoryItem>)
    requires i < |Definitions| && Definitions[i].category == Help
    requires Denotes(Definitions[i], Words(command)[0])
    requires |Words(command)| >= 2 && j < |Definitions| && Denotes(Definitions[j], Words(command)[1])
    ensures Process(command, history).status == Info
    ensures Process(command, history).message == "Help for command: " + Definitions[j].name
  {
    var parts := Words(command);
    RouteOfHandledEntry(i, parts);
    ProcessFollowsRoute(command, history);
    LookupFindsOwner(j, parts[1]);
    TokenWellFormed(j, parts[1]);
  }

  /** `help <t>` for a `t` that is neither a name nor an alias is a warning. */
  lemma HelpRejectsUnknownTopics(i: nat, command: string, history: seq<HistoryItem>)
    requires i < |Definitions| && Definitions[i].category == Help
    requires Denotes(Definitions[i], Words(command)[0])
    requires |Words(command)| >= 2 && Words(command)[1] != ""
    requires forall j :: 0 <= j < |Definitions| ==> !Denotes(Definitions[j], Words(command)[1])
    ensures Process(command, history) ==
              Response("No help available for: \"" + Words(command)[1] + "\"", Warning, NoData)
  {
    RouteOfHandledEntry(i, Words(command));
    ProcessFollowsRoute(command, history);
  }

  /** Bare `help` lists every command in exactly one category group. */
  lemma HelpListsEveryCommandOnce()
    ensures Listed(HelpGroups()) == multiset(Names(Definitions))
  {
    ListedGroupsOf(AllCategories);
    CategoriesPartitionNames(Definitions);
  }

  lemma {:induction false} ListedGroupsOf(cs: seq<Category>)
    ensures Listed(GroupsOf(cs)) == GroupedOver(Definitions, cs)
    decreases |cs|
  {
    if cs != [] {
      ListedGroupsOf(cs[1..]);
    }
  }
}
