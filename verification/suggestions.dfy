/**
  The suggestion generator of the enhanced interpreter (`generateSuggestions` in
  src/utils/masterPromptingSystem.ts): the last command for a blank line, name
  completion for one word, and a fixed list of follow-ups for a few multi-word lines.
 */
module Suggestions {
  import opened Text
  import opened Registry
  import opened Responses

  /** One entry of the interaction log; its timestamp is not modelled. */
  datatype HistoryItem = HistoryItem(command: string, response: Response)

  /** `d` completes `key`: its name or one of its aliases starts with `key`. */
  predicate Completes(d: CommandDef, key: string) {
    key <= d.name || exists a :: a in d.aliases && key <= a
  }

  /** The registry positions, from `from` on, of the entries that complete `key`: all of them,
      each once, in registry order. */
  function CompletionPositions(key: string, from: nat): (p: seq<nat>)
    requires from <= |Definitions|
    ensures forall k :: 0 <= k < |p| ==> from <= p[k] < |Definitions| && Completes(Definitions[p[k]], key)
    ensures forall i :: from <= i < |Definitions| && Completes(Definitions[i], key) ==> i in p
    ensures forall k, l :: 0 <= k < l < |p| ==> p[k] < p[l]
    decreases |Definitions| - from
  {
    if from == |Definitions| then []
    else if Completes(Definitions[from], key) then [from] + CompletionPositions(key, from + 1)
    else CompletionPositions(key, from + 1)
  }

  /** The canonical names at the given registry positions. */
  function NamesAt(p: seq<nat>): (r: seq<string>)
    requires forall k :: 0 <= k < |p| ==> p[k] < |Definitions|
    ensures |r| == |p|
    ensures forall k :: 0 <= k < |p| ==> r[k] == Definitions[p[k]].name
  {
    if p == [] then [] else [Definitions[p[0]].name] + NamesAt(p[1..])
  }

  /** The fixed follow-up lists offered after a recognised first word and a space. */
  function ArgumentHints(base: string): seq<string> {
    if base == "status" || base == "health" then
      ["status network", "status security", "status resources", "status ai"]
    else if base == "network" then
      ["network status", "network optimize", "network diagram", "network scan"]
    else if base == "security" then
      ["security scan", "security threat-level", "security protocols"]
    else []
  }

  /** `generateSuggestions`. A line with a space never completes a name, so there only the
      hand-written follow-up lists (or nothing) are offered. */
  function Suggest(input: string, history: seq<HistoryItem>): (r: seq<string>)
    ensures var key := Trim(Lower(input));
      && (key == [] && |history| > 0 ==> r == [history[|history| - 1].command])
      && (key == [] && history == [] ==> r == ["status", "help"])
      && (key != [] && ' ' !in key ==> r == NamesAt(CompletionPositions(key, 0)))
      && (' ' in key ==> r == ArgumentHints(Split(key, ' ')[0]))
  {
    var key := Trim(Lower(input));
    if key == [] then
      if |history| > 0 then [history[|history| - 1].command] else ["status", "help"]
    else
      var completions := NamesAt(CompletionPositions(key, 0));
      var parts := Split(key, ' ');
      if |parts| > 1 && (parts[0] == "status" || parts[0] == "health") then
        ["status network", "status security", "status resources", "status ai"]
      else if |parts| > 1 && parts[0] == "network" then
        ["network status", "network optimize", "network diagram", "network scan"]
      else if |parts| > 1 && parts[0] == "security" then
        ["security scan", "security threat-level", "security protocols"]
      else
        if ' ' in key then SpacedKeyCompletesNothing(key); completions
        else completions
  }

  /** No name or alias contains a space, so a key containing one completes no entry. */
  lemma SpacedKeyCompletesNothing(key: string)
    requires ' ' in key
    ensures CompletionPositions(key, 0) == []
  {
    var k := IndexOf(key, ' ');
    forall i | 0 <= i < |Definitions|
      ensures !Completes(Definitions[i], key)
    {
      if key <= Definitions[i].name {
        TokenWellFormed(i, Definitions[i].name);
      }
      forall a | a in Definitions[i].aliases && key <= a
        ensures false
      {
        TokenWellFormed(i, a);
      }
    }
  }

  /** Completion offers every entry whose name or alias extends the typed word, by its
      canonical name, in registry order, each at most once. */
  lemma CompletionsAreMatchingNames(input: string, history: seq<HistoryItem>)
    requires Trim(Lower(input)) != [] && ' ' !in Trim(Lower(input))
    ensures var key := Trim(Lower(input));
      var r := Suggest(input, history);
      && (forall n :: n in r <==>
            exists i :: 0 <= i < |Definitions| && Definitions[i].name == n && Completes(Definitions[i], key))
      && (forall k, l :: 0 <= k < l < |r| ==> r[k] != r[l])
  {
    var key := Trim(Lower(input));
    assert Suggest(input, history) == NamesAt(CompletionPositions(key, 0));
    CompletedNamesMatch(key);
    CompletedNamesDistinct(key);
  }

  lemma CompletedNamesMatch(key: string)
    ensures var r := NamesAt(CompletionPositions(key, 0));
      forall n :: n in r <==>
        exists i :: 0 <= i < |Definitions| && Definitions[i].name == n && Completes(Definitions[i], key)
  {
    var p := CompletionPositions(key, 0);
    var r := NamesAt(p);
    forall n | n in r
      ensures exists i :: 0 <= i < |Definitions| && Definitions[i].name == n && Completes(Definitions[i], key)
    {
      var k :| 0 <= k < |r| && r[k] == n;
      assert Definitions[p[k]].name == n;
    }
    forall i | 0 <= i < |Definitions| && Completes(Definitions[i], key)
      ensures Definitions[i].name in r
    {
      var k :| 0 <= k < |p| && p[k] == i;
      assert r[k] == Definitions[i].name;
    }
  }

  lemma CompletedNamesDistinct(key: string)
    ensures var r := NamesAt(CompletionPositions(key, 0));
      forall k, l :: 0 <= k < l < |r| ==> r[k] != r[l]
  {
    var p := CompletionPositions(key, 0);
    var r := NamesAt(p);
    forall k, l | 0 <= k < l < |r|
      ensures r[k] != r[l]
    {
      if r[k] == r[l] {
        NamesDistinct(p[k], p[l]);
      }
    }
  }

  /** Completion of a non-blank line never looks at the history. */
  lemma NonBlankIgnoresHistory(input: string, h1: seq<HistoryItem>, h2: seq<HistoryItem>)
    requires Trim(Lower(input)) != []
    ensures Suggest(input, h1) == Suggest(input, h2)
  {
  }
}
