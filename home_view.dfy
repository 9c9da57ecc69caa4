/**
  The labels of the home view: an event type turned into a title, the display
  names the commission rules give events, and the one-line summaries under the
  conversions and earnings cards.
*/
module HomeView {
  import opened Wrappers
  import opened Dictionaries
  import opened Js
  import opened Seqs
  import opened Text
  import opened Earnings
  import opened Transformers

  /** `word.charAt(0).toUpperCase() + word.slice(1)`. */
  function Capitalize(word: string): string
  {
    if word == [] then [] else [UpperChar(word[0])] + word[1..]
  }

  function CapitalizeAll(words: seq<string>): seq<string>
  {
    seq(|words|, i requires 0 <= i < |words| => Capitalize(words[i]))
  }

  /**
    The title, character by character: each `_` becomes a space, and a
    character that starts a word (the first, when `atStart`, or one after a
    `_`) is upper-cased.
  */
  function TitleChars(s: string, atStart: bool): string
  {
    if s == [] then []
    else if s[0] == '_' then [' '] + TitleChars(s[1..], true)
    else [if atStart then UpperChar(s[0]) else s[0]] + TitleChars(s[1..], false)
  }

  /** The character the title has at `i`. */
  function TitleCharAt(s: string, atStart: bool, i: nat): char
    requires i < |s|
  {
    if s[i] == '_' then ' '
    else if (i == 0 && atStart) || (i > 0 && s[i - 1] == '_') then UpperChar(s[i])
    else s[i]
  }

  lemma {:induction false} TitleCharsAt(s: string, atStart: bool)
    ensures |TitleChars(s, atStart)| == |s|
    ensures forall i :: 0 <= i < |s| ==> TitleChars(s, atStart)[i] == TitleCharAt(s, atStart, i)
  {
    if s != [] {
      TitleCharsAt(s[1..], s[0] == '_');
      var t := TitleChars(s, atStart);
      var rest := TitleChars(s[1..], s[0] == '_');
      assert t == [t[0]] + rest;
      forall i | 0 <= i < |s|
        ensures t[i] == TitleCharAt(s, atStart, i)
      {
        if i > 0 {
          assert t[i] == rest[i - 1] == TitleCharAt(s[1..], s[0] == '_', i - 1);
          assert s[1..][i - 1] == s[i];
          if i > 1 {
            assert s[1..][i - 2] == s[i - 1];
          }
        }
      }
    }
  }

  /**
    Joining the capitalised words of `s` (all of them, or all but the first)
    gives the title of `s` character by character.
  */
  lemma {:induction false} TitleOfWords(s: string)
    ensures Join(CapitalizeAll(Split(s, '_')), " ") == TitleChars(s, true)
    ensures Join([Split(s, '_')[0]] + CapitalizeAll(Split(s, '_')[1..]), " ") == TitleChars(s, false)
  {
    if s != [] {
      TitleOfWords(s[1..]);
      if s[0] == '_' {
        TitleAfterUnderscore(s);
      } else {
        TitleAfterLetter(s);
      }
    }
  }

  /** A leading `_` puts an empty word in front, which the join turns into a space. */
  lemma TitleAfterUnderscore(s: string)
    requires s != [] && s[0] == '_'
    requires Join(CapitalizeAll(Split(s[1..], '_')), " ") == TitleChars(s[1..], true)
    ensures Join(CapitalizeAll(Split(s, '_')), " ") == TitleChars(s, true)
    ensures Join([Split(s, '_')[0]] + CapitalizeAll(Split(s, '_')[1..]), " ") == TitleChars(s, false)
  {
    var rest := Split(s[1..], '_');
    var split := Split(s, '_');
    assert split == [""] + rest;
    assert TitleChars(s, true) == [' '] + TitleChars(s[1..], true);
    assert TitleChars(s, false) == [' '] + TitleChars(s[1..], true);
    CapitalizeAllCons("", rest);
    JoinAfterEmpty(CapitalizeAll(rest));
    assert split[1..] == rest;
  }

  /** A leading letter goes to the front of the first word, upper-cased only at the start. */
  lemma TitleAfterLetter(s: string)
    requires s != [] && s[0] != '_'
    requires Join([Split(s[1..], '_')[0]] + CapitalizeAll(Split(s[1..], '_')[1..]), " ") == TitleChars(s[1..], false)
    ensures Join(CapitalizeAll(Split(s, '_')), " ") == TitleChars(s, true)
    ensures Join([Split(s, '_')[0]] + CapitalizeAll(Split(s, '_')[1..]), " ") == TitleChars(s, false)
  {
    var c := s[0];
    var rest := Split(s[1..], '_');
    var split := Split(s, '_');
    var words := [rest[0]] + CapitalizeAll(rest[1..]);
    assert split == [[c] + rest[0]] + rest[1..];
    assert split[0] == [c] + rest[0] && split[1..] == rest[1..];
    assert TitleChars(s, true) == [UpperChar(c)] + TitleChars(s[1..], false);
    assert TitleChars(s, false) == [c] + TitleChars(s[1..], false);
    CapitalizeAllCons([c] + rest[0], rest[1..]);
    assert Capitalize([c] + rest[0]) == [UpperChar(c)] + words[0];
    assert words[1..] == CapitalizeAll(rest[1..]);
    JoinConsFirst(UpperChar(c), words, " ");
    JoinConsFirst(c, words, " ");
  }

  lemma CapitalizeAllCons(w: string, ws: seq<string>)
    ensures CapitalizeAll([w] + ws) == [Capitalize(w)] + CapitalizeAll(ws)
  {
    var l := CapitalizeAll([w] + ws);
    var r := [Capitalize(w)] + CapitalizeAll(ws);
    assert |l| == |r|;
    forall i | 0 <= i < |l|
      ensures l[i] == r[i]
    {
      if i > 0 {
        assert ([w] + ws)[i] == ws[i - 1];
      }
    }
  }

  /** An empty first word leaves only the separator in front of the rest. */
  lemma JoinAfterEmpty(ws: seq<string>)
    requires |ws| >= 1
    ensures Join([""] + ws, " ") == " " + Join(ws, " ")
  {
    var words := [""] + ws;
    assert words[0] == "" && words[1..] == ws;
    assert Join(words, " ") == words[0] + " " + Join(ws, " ");
  }

  /**
    `formatEventType(eventType)`: the words between `_` with their first
    character upper-cased, joined by spaces; so the title is as long as the
    event type, has a space wherever it had `_`, and differs elsewhere only
    by upper-casing the first character of each word.
  */
  function FormatEventType(eventType: string): (r: string)
    ensures |r| == |eventType|
    ensures forall i :: 0 <= i < |eventType| ==>
              r[i] == if eventType[i] == '_' then ' '
                      else if i == 0 || eventType[i - 1] == '_' then UpperChar(eventType[i])
                      else eventType[i]
  {
    TitleOfWords(eventType);
    TitleCharsAt(eventType, true);
    assert forall i :: 0 <= i < |eventType| ==> TitleChars(eventType, true)[i] == TitleCharAt(eventType, true, i);
    Join(CapitalizeAll(Split(eventType, '_')), " ")
  }

  /** "free_trial" reads "Free Trial". */
  lemma FreeTrialTitle()
    ensures FormatEventType("free_trial") == "Free Trial"
  {
    var r := FormatEventType("free_trial");
    assert r[0] == 'F' && r[4] == ' ' && r[5] == 'T';
  }

  /** A rule's display name, when it has a non-empty one. */
  function NameOf(rule: CommissionRule): Option<string>
  {
    Js.Filled(rule.displayName)
  }

  /** One step of `buildEventDisplayNameMap`: a named rule sets its event unless the event already has a name. */
  function NameStep(names: Dict<string>, rule: CommissionRule): Dict<string>
  {
    if NameOf(rule).Some? && rule.event !in Keys(names) then Put(names, rule.event, NameOf(rule).value) else names
  }

  /** The names the rules, in order, add to `names`. */
  function NamesFrom(names: Dict<string>, rules: seq<CommissionRule>): Dict<string>
    decreases |rules|
  {
    if rules == [] then names else NamesFrom(NameStep(names, rules[0]), rules[1..])
  }

  /** The rules of all codes, one code after another. */
  function AllRules(codes: seq<ReferralCode>): seq<CommissionRule>
  {
    if codes == [] then [] else AllRules(codes[..|codes| - 1]) + codes[|codes| - 1].commissionConfig
  }

  /** The name of the first rule for `event` that has one. */
  function FirstName(rules: seq<CommissionRule>, event: string): Option<string>
  {
    if rules == [] then None
    else if rules[0].event == event && NameOf(rules[0]).Some? then NameOf(rules[0])
    else FirstName(rules[1..], event)
  }

  lemma {:induction false} NamesFromAppend(names: Dict<string>, a: seq<CommissionRule>, b: seq<CommissionRule>)
    ensures NamesFrom(names, a + b) == NamesFrom(NamesFrom(names, a), b)
    decreases |a|
  {
    if a == [] {
      assert a + b == b;
    } else {
      assert (a + b)[0] == a[0] && (a + b)[1..] == a[1..] + b;
      NamesFromAppend(NameStep(names, a[0]), a[1..], b);
    }
  }

  /** A name already set stays; an event without one gets the first name the rules give it. */
  lemma {:induction false} NamesFromFirstWins(names: Dict<string>, rules: seq<CommissionRule>, event: string)
    ensures Get(NamesFrom(names, rules), event)
            == if Get(names, event).Some? then Get(names, event) else FirstName(rules, event)
    decreases |rules|
  {
    if rules != [] {
      NamesFromFirstWins(NameStep(names, rules[0]), rules[1..], event);
    }
  }

  /** Every event that has a name is some rule's, and the rule gave that name. */
  lemma {:induction false} NamesFromKeys(names: Dict<string>, rules: seq<CommissionRule>)
    ensures Keys(NamesFrom(names, rules)) == Keys(names) + set r | r in rules && NameOf(r).Some? :: r.event
    ensures DistinctKeys(names) ==> DistinctKeys(NamesFrom(names, rules))
    decreases |rules|
  {
    if rules != [] {
      NamesFromKeys(NameStep(names, rules[0]), rules[1..]);
      assert rules == [rules[0]] + rules[1..];
    }
  }

  /** `buildEventDisplayNameMap(referralCodes)`. */
  method BuildEventDisplayNameMap(referralCodes: seq<ReferralCode>) returns (names: Dict<string>)
    ensures names == NamesFrom([], AllRules(referralCodes))
  {
    names := [];
    for i := 0 to |referralCodes|
      invariant names == NamesFrom([], AllRules(referralCodes[..i]))
    {
      var config := referralCodes[i].commissionConfig;
      ghost var before := names;
      for j := 0 to |config|
        invariant names == NamesFrom(before, config[..j])
      {
        var rule := config[j];
        assert config[..j + 1] == config[..j] + [rule];
        NamesFromAppend(before, config[..j], [rule]);
        if rule.displayName.Some? && rule.displayName.value != "" && rule.event !in Keys(names) {
          names := Put(names, rule.event, rule.displayName.value);
        }
      }
      assert config[..|config|] == config;
      assert referralCodes[..i + 1][..i] == referralCodes[..i];
      NamesFromAppend([], AllRules(referralCodes[..i]), config);
    }
    assert referralCodes[..|referralCodes|] == referralCodes;
  }

  /**
    The display name of an event is that of the first rule, over all codes in
    order, that names it; the map has one entry per named event and no other.
  */
  lemma DisplayNameIsFirstRules(codes: seq<ReferralCode>, event: string)
    ensures Get(NamesFrom([], AllRules(codes)), event) == FirstName(AllRules(codes), event)
    ensures Keys(NamesFrom([], AllRules(codes))) == set r | r in AllRules(codes) && NameOf(r).Some? :: r.event
    ensures DistinctKeys(NamesFrom([], AllRules(codes)))
  {
    NamesFromFirstWins([], AllRules(codes), event);
    NamesFromKeys([], AllRules(codes));
  }

  /** `displayNameMap.get(eventType) || formatEventType(eventType)`. */
  function Label(names: Dict<string>, eventType: string): string
  {
    var name := Get(names, eventType);
    if name.Some? && name.value != "" then name.value else FormatEventType(eventType)
  }

  /** A name found among the rules is never empty. */
  lemma {:induction false} FirstNameFilled(rules: seq<CommissionRule>, event: string)
    ensures FirstName(rules, event).Some? ==> FirstName(rules, event).value != ""
  {
    if rules != [] {
      FirstNameFilled(rules[1..], event);
    }
  }

  /**
    Against the map built from the codes, an event is labelled by the display
    name of the first rule, over all codes in order, that names it, and by its
    formatted type when no rule names it.
  */
  lemma LabelOfBuiltMap(codes: seq<ReferralCode>, eventType: string)
    ensures Label(NamesFrom([], AllRules(codes)), eventType)
            == if FirstName(AllRules(codes), eventType).Some? then FirstName(AllRules(codes), eventType).value
               else FormatEventType(eventType)
  {
    DisplayNameIsFirstRules(codes, eventType);
    FirstNameFilled(AllRules(codes), eventType);
  }

  /** The separator between the parts of a summary, the character U+8DEF between spaces. */
  const Separator: string := " \U{8DEF} "

  /** The entry of a count that the conversions summary shows: any event but `signup`, in any case. */
  predicate ShowsConversion(entry: Entry<real>)
  {
    Lower(entry.key) != "signup"
  }

  /** `${count.toLocaleString()} ${displayName.toLowerCase()}`. */
  function ConversionPart(entry: Entry<real>, names: Dict<string>, host: Host): string
  {
    host.toLocaleString(entry.value) + " " + Lower(Label(names, entry.key))
  }

  function ConversionParts(eventStats: Dict<real>, names: Dict<string>, host: Host): seq<string>
  {
    var shown := Filter(eventStats, ShowsConversion);
    seq(|shown|, i requires 0 <= i < |shown| => ConversionPart(shown[i], names, host))
  }

  /** The parts joined by the separator, or `empty` when there are none. */
  function Summary(parts: seq<string>, empty: string): string
  {
    if |parts| > 0 then Join(parts, Separator) else empty
  }

  /**
    `buildConversionSubtitle(stats, displayNameMap)`: one part per event count
    other than `signup`, in the record's order. The legacy branch for a record
    without counts reads `trialConversions` and `paidConversions`, which the
    dashboard statistics never carry, so it adds no part.
  */
  method BuildConversionSubtitle(stats: DashboardStats, names: Dict<string>, host: Host) returns (r: string)
    ensures r == Summary(ConversionParts(stats.eventStats, names, host), "No conversions yet")
  {
    var parts: seq<string> := [];
    var entries := stats.eventStats;
    for i := 0 to |entries|
      invariant parts == ConversionParts(entries[..i], names, host)
    {
      var entry := entries[i];
      assert entries[..i + 1] == entries[..i] + [entry];
      FilterSnoc(entries[..i], entry, ShowsConversion);
      if Lower(entry.key) != "signup" {
        var displayName := Label(names, entry.key);
        parts := parts + [host.toLocaleString(entry.value) + " " + Lower(displayName)];
      }
    }
    assert entries[..|entries|] == entries;
    r := if |parts| > 0 then Join(parts, Separator) else "No conversions yet";
  }

  /**
    The conversions summary has one part per count other than `signup`, that
    count's part, and reads "No conversions yet" exactly when there is none.
  */
  lemma ConversionPartsAreShownCounts(eventStats: Dict<real>, names: Dict<string>, host: Host)
    ensures var parts := ConversionParts(eventStats, names, host);
            |parts| == |Filter(eventStats, ShowsConversion)|
            && (parts == [] <==> forall e :: e in eventStats ==> Lower(e.key) == "signup")
  {
    FilterMembers(eventStats, ShowsConversion);
    var shown := Filter(eventStats, ShowsConversion);
    if shown != [] {
      assert shown[0] in shown;
    }
  }

  /** The entry of an amount that the earnings summary shows: a positive one. */
  predicate ShowsEarning(entry: Entry<real>)
  {
    entry.value > 0.0
  }

  /** `${formatCurrency(amount, currency)} from ${displayName.toLowerCase()}`. */
  function EarningPart(entry: Entry<real>, currency: string, names: Dict<string>, host: Host): string
  {
    host.formatCurrency(entry.value, currency) + " from " + Lower(Label(names, entry.key))
  }

  function EarningParts(breakdown: Dict<real>, currency: string, names: Dict<string>, host: Host): seq<string>
  {
    var shown := Filter(breakdown, ShowsEarning);
    seq(|shown|, i requires 0 <= i < |shown| => EarningPart(shown[i], currency, names, host))
  }

  /** `buildEarningsSubtitle(stats, displayNameMap)`: one part per positive amount, in the breakdown's order. */
  method BuildEarningsSubtitle(stats: DashboardStats, names: Dict<string>, host: Host) returns (r: string)
    ensures r == Summary(EarningParts(stats.totalEarnings.breakdown, stats.totalEarnings.currency, names, host),
                         "No earnings yet")
  {
    var breakdown, currency := stats.totalEarnings.breakdown, stats.totalEarnings.currency;
    var parts: seq<string> := [];
    for i := 0 to |breakdown|
      invariant parts == EarningParts(breakdown[..i], currency, names, host)
    {
      var entry := breakdown[i];
      assert breakdown[..i + 1] == breakdown[..i] + [entry];
      FilterSnoc(breakdown[..i], entry, ShowsEarning);
      if entry.value > 0.0 {
        var displayName := Label(names, entry.key);
        parts := parts + [host.formatCurrency(entry.value, currency) + " from " + Lower(displayName)];
      }
    }
    assert breakdown[..|breakdown|] == breakdown;
    r := if |parts| > 0 then Join(parts, Separator) else "No earnings yet";
  }

  /** The earnings summary reads "No earnings yet" exactly when no amount is positive. */
  lemma EarningPartsAreShownAmounts(breakdown: Dict<real>, currency: string, names: Dict<string>, host: Host)
    ensures var parts := EarningParts(breakdown, currency, names, host);
            |parts| == |Filter(breakdown, ShowsEarning)|
            && (parts == [] <==> forall e :: e in breakdown ==> e.value <= 0.0)
  {
    FilterMembers(breakdown, ShowsEarning);
    var shown := Filter(breakdown, ShowsEarning);
    if shown != [] {
      assert shown[0] in shown;
    }
  }
}
