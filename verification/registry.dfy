/**
  The static command registry of the enhanced interpreter (`commandDefinitions` in
  src/utils/masterPromptingSystem.ts) and its name-or-alias lookup (`find`).
 */
module Registry {
  import opened Options
  import opened Text

  datatype Category = System | Resource | Security | Network | Help | Automation

  datatype CommandDef = CommandDef(
    name: string,
    aliases: seq<string>,
    category: Category,
    description: string,
    usage: string,
    examples: seq<string>)

  const Definitions: seq<CommandDef> := [
    CommandDef("status", ["health", "diagnostics"], System,
      "Display the current status of MCP systems", "status [component]",
      ["status", "status network", "health"]),
    CommandDef("allocate", ["resource", "assign"], Resource,
      "Optimize resource allocation based on current workloads", "allocate [resource] [amount]",
      ["allocate", "resource optimize", "assign quantum 80"]),
    CommandDef("security", ["secure", "threat", "protection"], Security,
      "Manage security systems and threat assessment", "security [scan|config|status]",
      ["security", "security scan", "threat analyze"]),
    CommandDef("network", ["connect", "topology", "route"], Network,
      "Manage network configuration and connections", "network [status|optimize|diagram]",
      ["network", "connect status", "topology map"]),
    CommandDef("help", ["?", "guide", "docs"], Help,
      "Display help information for available commands", "help [command]",
      ["help", "help security", "?"]),
    CommandDef("macro", ["script", "automate", "batch"], Automation,
      "Record, manage and run command macros", "macro [record|stop|run|list] [name]",
      ["macro record daily_check", "macro stop", "macro run daily_check"])
  ]

  /** `t` is the canonical name or one of the aliases of `d`. */
  predicate Denotes(d: CommandDef, t: string) {
    t == d.name || t in d.aliases
  }

  /** `Array.prototype.find` from position `from`: the first entry that `t` denotes. */
  function FindFrom(defs: seq<CommandDef>, t: string, from: nat): (r: Option<nat>)
    requires from <= |defs|
    ensures r.Some? ==> from <= r.value < |defs| && Denotes(defs[r.value], t)
    ensures r.Some? ==> forall j :: from <= j < r.value ==> !Denotes(defs[j], t)
    ensures r.None? <==> forall j :: from <= j < |defs| ==> !Denotes(defs[j], t)
    decreases |defs| - from
  {
    if from == |defs| then None
    else if Denotes(defs[from], t) then Some(from)
    else FindFrom(defs, t, from + 1)
  }

  /** The registry entry a token resolves to, if any. */
  function Lookup(t: string): (r: Option<CommandDef>)
    ensures r.Some? ==> r.value in Definitions && Denotes(r.value, t)
    ensures r.None? <==> forall j :: 0 <= j < |Definitions| ==> !Denotes(Definitions[j], t)
  {
    match FindFrom(Definitions, t, 0)
    case Some(i) => Some(Definitions[i])
    case None => None
  }

  /** The names and aliases of each entry, spelled out. */
  lemma EntryTokens(i: nat, t: string)
    requires i < |Definitions| && Denotes(Definitions[i], t)
    ensures i == 0 ==> t == "status" || t == "health" || t == "diagnostics"
    ensures i == 1 ==> t == "allocate" || t == "resource" || t == "assign"
    ensures i == 2 ==> t == "security" || t == "secure" || t == "threat" || t == "protection"
    ensures i == 3 ==> t == "network" || t == "connect" || t == "topology" || t == "route"
    ensures i == 4 ==> t == "help" || t == "?" || t == "guide" || t == "docs"
    ensures i == 5 ==> t == "macro" || t == "script" || t == "automate" || t == "batch"
  {
  }

  /** No two registry entries share a name or alias, so lookup is unambiguous. */
  lemma TokenOwnerUnique(i: nat, j: nat, t: string)
    requires i < |Definitions| && j < |Definitions|
    requires Denotes(Definitions[i], t) && Denotes(Definitions[j], t)
    ensures i == j
  {
    EntryTokens(i, t);
    EntryTokens(j, t);
  }

  /** Every name and alias is non-empty, contains no space and is already lower case, so the
      lower-cased first word of a line can match it and a line with a space never can. */
  lemma TokenWellFormed(i: nat, t: string)
    requires i < |Definitions| && Denotes(Definitions[i], t)
    ensures t != [] && ' ' !in t && Lower(t) == t
  {
    TokenIsPlain(i, t);
    PlainIsLowerWithoutSpace(t);
  }

  lemma TokenIsPlain(i: nat, t: string)
    requires i < |Definitions| && Denotes(Definitions[i], t)
    ensures t != [] && Plain(t)
  {
    EntryTokens(i, t);
    if i <= 2 {
      EarlyTokensPlain(t);
    } else {
      LateTokensPlain(t);
    }
  }

  /** `t` is made of lower-case ASCII letters and question marks only. */
  predicate Plain(t: string) {
    PlainFrom(t, 0)
  }

  /** From position `k` on, `t` holds only lower-case ASCII letters and question marks. */
  predicate PlainFrom(t: string, k: nat)
    decreases |t| - k
  {
    k >= |t| || (('a' <= t[k] <= 'z' || t[k] == '?') && PlainFrom(t, k + 1))
  }

  lemma EarlyTokensPlain(t: string)
    requires t in ["status", "health", "diagnostics", "allocate", "resource", "assign",
                   "security", "secure", "threat", "protection"]
    ensures Plain(t)
  {
  }

  lemma LateTokensPlain(t: string)
    requires t in ["network", "connect", "topology", "route", "help", "?", "guide", "docs",
                   "macro", "script", "automate", "batch"]
    ensures Plain(t)
  {
  }

  lemma PlainIsLowerWithoutSpace(t: string)
    requires Plain(t)
    ensures ' ' !in t && Lower(t) == t
  {
    PlainFromHolds(t, 0);
  }

  lemma {:induction false} PlainFromHolds(t: string, k: nat)
    requires PlainFrom(t, k)
    ensures forall j :: k <= j < |t| ==> 'a' <= t[j] <= 'z' || t[j] == '?'
    decreases |t| - k
  {
    if k < |t| {
      PlainFromHolds(t, k + 1);
    }
  }

  /** Every name and alias resolves to its own entry. */
  lemma LookupFindsOwner(i: nat, t: string)
    requires i < |Definitions| && Denotes(Definitions[i], t)
    ensures Lookup(t) == Some(Definitions[i])
  {
    var k := FindFrom(Definitions, t, 0);
    assert k.Some?;
    TokenOwnerUnique(i, k.value, t);
  }

  /** No two entries share a canonical name. */
  lemma NamesDistinct(i: nat, j: nat)
    requires i < |Definitions| && j < |Definitions|
    requires Definitions[i].name == Definitions[j].name
    ensures i == j
  {
    TokenOwnerUnique(i, j, Definitions[i].name);
  }

  /** The canonical names, in registry order. */
  function Names(defs: seq<CommandDef>): (r: seq<string>)
    ensures |r| == |defs|
    ensures forall k :: 0 <= k < |defs| ==> r[k] == defs[k].name
  {
    if defs == [] then [] else [defs[0].name] + Names(defs[1..])
  }

  /** `filter(cmd => cmd.category === c).map(cmd => cmd.name)`. */
  function NamesIn(defs: seq<CommandDef>, c: Category): seq<string> {
    if defs == [] then []
    else (if defs[0].category == c then [defs[0].name] else []) + NamesIn(defs[1..], c)
  }

  /** The six categories, in the order the help answer lists them. */
  const AllCategories: seq<Category> := [System, Resource, Security, Network, Help, Automation]

  /** The names of `defs` gathered group by group, one group per category of `cs`. */
  function GroupedOver(defs: seq<CommandDef>, cs: seq<Category>): multiset<string>
    decreases |cs|
  {
    if cs == [] then multiset{} else multiset(NamesIn(defs, cs[0])) + GroupedOver(defs, cs[1..])
  }

  /** Grouping the names by the six categories loses no name and repeats none: the groups
      together hold exactly the registry's names, each as often as the registry does. */
  lemma {:induction false} CategoriesPartitionNames(defs: seq<CommandDef>)
    ensures GroupedOver(defs, AllCategories) == multiset(Names(defs))
    decreases |defs|
  {
    if defs != [] {
      var d, rest := defs[0], defs[1..];
      CategoriesPartitionNames(rest);
      assert Names(defs) == [d.name] + Names(rest);
      AllCategoriesDistinct();
      GroupedOverCons(defs, AllCategories);
      assert d.category in AllCategories by { assert d.category == AllCategories[CategoryIndex(d.category)]; }
      assert GroupedOver(defs, AllCategories) == multiset{d.name} + GroupedOver(rest, AllCategories);
    }
  }

  lemma AllCategoriesDistinct()
    ensures forall k, l :: 0 <= k < l < |AllCategories| ==> AllCategories[k] != AllCategories[l]
  {
  }

  /** The position of a category in `AllCategories`. */
  function CategoryIndex(c: Category): (i: nat)
    ensures i < |AllCategories| && AllCategories[i] == c
  {
    match c
    case System => 0
    case Resource => 1
    case Security => 2
    case Network => 3
    case Help => 4
    case Automation => 5
  }

  /** The first entry's name lands in the group of its own category, if that group is listed
      (once, since no category is listed twice). */
  lemma {:induction false} GroupedOverCons(defs: seq<CommandDef>, cs: seq<Category>)
    requires defs != []
    requires forall k, l :: 0 <= k < l < |cs| ==> cs[k] != cs[l]
    ensures GroupedOver(defs, cs) ==
              (if defs[0].category in cs then multiset{defs[0].name} else multiset{}) + GroupedOver(defs[1..], cs)
    decreases |cs|
  {
    if cs != [] {
      var d, rest := defs[0], defs[1..];
      GroupedOverCons(defs, cs[1..]);
      if d.category == cs[0] {
        assert d.category !in cs[1..];
        assert NamesIn(defs, cs[0]) == [d.name] + NamesIn(rest, cs[0]);
        assert multiset(NamesIn(defs, cs[0])) == multiset{d.name} + multiset(NamesIn(rest, cs[0]));
      } else {
        assert NamesIn(defs, cs[0]) == NamesIn(rest, cs[0]);
      }
    }
  }
}
