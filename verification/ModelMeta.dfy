/** Filling in what the catalogue of models shows: endpoints, groups, quota types and channels of each entry.

    A rule entry stands for all priced models whose names it matches. The work is batched: one pass over the
    prices for all rule entries, one channel query for all matched names. The result is what one entry at a
    time would get. */
module ModelMeta {
  import opened Decimal
  import opened Lists

  datatype NameRule = Exact | Prefix | Contains | Suffix | NoRule

  datatype BoundChannel = BoundChannel(name: string, kind: int)

  /** Lists that come from a set are in no particular order. */
  datatype Collection<T(==)> = Ordered(list: seq<T>) | Unordered(elements: set<T>)

  datatype Endpoints = Given(text: string) | Encoded(types: Collection<string>)

  datatype Model = Model(
    name: string, rule: NameRule, endpoints: Endpoints, channels: Collection<BoundChannel>,
    groups: Collection<string>, quotaTypes: seq<int>, matchedModels: seq<string>, matchedCount: int)

  datatype Entry = Missing | Present(m: Model)

  datatype Price = Price(name: string, endpoints: seq<string>, groups: seq<string>, quotaType: int)

  /** An enabled ability joined with its channel. */
  datatype Binding = Binding(model: string, channel: BoundChannel)

  /** What the enrichment reads: the prices, the bindings and the caches for exact names. */
  datatype Catalog = Catalog(prices: seq<Price>, bindings: seq<Binding>,
                             endpointsOf: string -> seq<string>, groupsOf: string -> seq<string>,
                             quotaTypesOf: string -> seq<int>)

  predicate HasSubstring(s: string, part: string) {
    part <= s || (s != "" && HasSubstring(s[1..], part))
  }

  lemma {:induction false} SubstringMeans(s: string, part: string)
    ensures HasSubstring(s, part) <==> exists i: nat :: i + |part| <= |s| && s[i..][..|part|] == part
  {
    if part <= s {
      assert s[0..][..|part|] == part;
    } else if s != "" {
      SubstringMeans(s[1..], part);
      if i: nat :| i + |part| <= |s[1..]| && s[1..][i..][..|part|] == part {
        assert s[1..][i..] == s[i + 1..];
      }
      if i: nat :| i + |part| <= |s| && s[i..][..|part|] == part {
        assert i > 0;
        assert s[1..][i - 1..] == s[i..];
      }
    }
  }

  predicate Matches(rule: NameRule, pattern: string, name: string) {
    match rule
    case Prefix => pattern <= name
    case Suffix => |pattern| <= |name| && name[|name| - |pattern|..] == pattern
    case Contains => HasSubstring(name, pattern)
    case Exact => false
    case NoRule => false
  }

  // ----- one entry at a time -----

  function MatchesOf(m: Model): Price -> bool {
    (p: Price) => Matches(m.rule, m.name, p.name)
  }

  function Matched(m: Model, prices: seq<Price>): seq<Price> {
    Filter(prices, MatchesOf(m))
  }

  function SetOf<T(==)>(s: seq<T>): set<T> {
    set x | x in s
  }

  function NamesOf(prices: seq<Price>): (r: seq<string>)
    ensures |r| == |prices|
  {
    if prices == [] then [] else NamesOf(prices[..|prices| - 1]) + [prices[|prices| - 1].name]
  }

  function EndpointsIn(prices: seq<Price>): set<string> {
    if prices == [] then {}
    else EndpointsIn(prices[..|prices| - 1]) + SetOf(prices[|prices| - 1].endpoints)
  }

  function GroupsIn(prices: seq<Price>): set<string> {
    if prices == [] then {}
    else GroupsIn(prices[..|prices| - 1]) + SetOf(prices[|prices| - 1].groups)
  }

  function QuotaTypesIn(prices: seq<Price>): set<int> {
    if prices == [] then {} else QuotaTypesIn(prices[..|prices| - 1]) + {prices[|prices| - 1].quotaType}
  }

  /** The distinct channels of a model. */
  function ChannelsOf(bindings: seq<Binding>, name: string): seq<BoundChannel> {
    if bindings == [] then []
    else
      var last := bindings[|bindings| - 1];
      var channels := ChannelsOf(bindings[..|bindings| - 1], name);
      if last.model == name && last.channel !in channels then channels + [last.channel] else channels
  }

  lemma {:induction false} ChannelsOfAreThose(bindings: seq<Binding>, name: string)
    ensures var channels := ChannelsOf(bindings, name);
            && (forall i, j | 0 <= i < j < |channels| :: channels[i] != channels[j])
            && forall ch :: ch in channels <==> Binding(name, ch) in bindings
  {
    if bindings != [] {
      var front, last := bindings[..|bindings| - 1], bindings[|bindings| - 1];
      ChannelsOfAreThose(front, name);
      assert bindings == front + [last];
    }
  }

  /** The channels that serve some of the models. */
  function ChannelsIn(bindings: seq<Binding>, names: seq<string>): set<BoundChannel> {
    if names == [] then {}
    else ChannelsIn(bindings, names[..|names| - 1]) + SetOf(ChannelsOf(bindings, names[|names| - 1]))
  }

  function ExactEnriched(m: Model, c: Catalog): Model {
    m.(endpoints := if m.endpoints == Given("") then Encoded(Ordered(c.endpointsOf(m.name))) else m.endpoints,
       channels := Ordered(ChannelsOf(c.bindings, m.name)),
       groups := Ordered(c.groupsOf(m.name)),
       quotaTypes := c.quotaTypesOf(m.name))
  }

  /** The union of what the matched prices offer; an entry that matches nothing keeps what it had. */
  ghost predicate RuleEnriched(was: Model, now: Model, c: Catalog) {
    var matched := Matched(was, c.prices);
    var channels := ChannelsIn(c.bindings, NamesOf(matched));
    && now == was.(
         endpoints := if matched != [] && was.endpoints == Given("")
                      then Encoded(Unordered(EndpointsIn(matched))) else was.endpoints,
         channels := if channels != {} then Unordered(channels) else was.channels,
         groups := if matched != [] then Unordered(GroupsIn(matched)) else was.groups,
         quotaTypes := now.quotaTypes,
         matchedModels := NamesOf(matched),
         matchedCount := |matched|)
    && (if matched != [] then SortedSet(now.quotaTypes, QuotaTypesIn(matched)) else now.quotaTypes == was.quotaTypes)
  }

  ghost predicate Enriched(was: Entry, now: Entry, c: Catalog) {
    match was
    case Missing => now == Missing
    case Present(m) =>
      if m.rule == Exact then now == Present(ExactEnriched(m, c))
      else now.Present? && RuleEnriched(m, now.m, c)
  }

  /** The unions hold what some matched price has, and nothing else. */
  lemma {:induction false} UnionMembers(prices: seq<Price>, e: string, g: string, q: int)
    ensures e in EndpointsIn(prices) <==> exists p | p in prices :: e in p.endpoints
    ensures g in GroupsIn(prices) <==> exists p | p in prices :: g in p.groups
    ensures q in QuotaTypesIn(prices) <==> exists p | p in prices :: p.quotaType == q
  {
    if prices != [] {
      var front, last := prices[..|prices| - 1], prices[|prices| - 1];
      assert prices == front + [last];
      assert forall p :: p in prices <==> p in front || p == last;
      UnionMembers(front, e, g, q);
    }
  }

  // ----- the key of a channel -----

  function ChannelKey(ch: BoundChannel): string {
    ch.name + ['_'] + Format(ch.kind)
  }

  lemma LastSeparator(a: string, x: string, b: string, y: string, sep: char)
    requires sep !in x && sep !in y && a + [sep] + x == b + [sep] + y
    ensures a == b && x == y
  {
    var s := a + [sep] + x;
    assert s[|a|] == sep && s[|b|] == sep;
    assert a == s[..|a|] && b == s[..|b|] && x == s[|a| + 1..] && y == s[|b| + 1..];
  }

  /** Channels are told apart by their keys, whatever their names contain. */
  lemma ChannelKeyIsInjective(a: BoundChannel, b: BoundChannel)
    ensures ChannelKey(a) == ChannelKey(b) <==> a == b
  {
    if ChannelKey(a) == ChannelKey(b) {
      FormatHasNoOther(a.kind, '_');
      FormatHasNoOther(b.kind, '_');
      LastSeparator(a.name, Format(a.kind), b.name, Format(b.kind), '_');
      FormatIsInjective(a.kind, b.kind);
    }
  }

  // ----- the batched computation -----

  function Lookup(result: map<string, seq<BoundChannel>>, name: string): seq<BoundChannel> {
    if name in result then result[name] else []
  }

  /** The query's result has the channels of each of the names. */
  ghost predicate Answers(result: map<string, seq<BoundChannel>>, names: set<string>, bindings: seq<Binding>) {
    forall n | n in names :: Lookup(result, n) == ChannelsOf(bindings, n)
  }

  lemma AnswersMore(result: map<string, seq<BoundChannel>>, names: set<string>, bindings: seq<Binding>, i: nat)
    requires i < |bindings| && Answers(result, names, bindings[..i])
    ensures var row := bindings[i];
            Answers(if row.model in names && row.channel !in Lookup(result, row.model)
                    then result[row.model := Lookup(result, row.model) + [row.channel]] else result,
                    names, bindings[..i + 1])
  {
    assert bindings[..i + 1][..i] == bindings[..i];
  }

  /** One query for all the names; it delivers each row once. */
  method GetBoundChannelsByModels(names: set<string>, bindings: seq<Binding>)
    returns (result: map<string, seq<BoundChannel>>)
    ensures Answers(result, names, bindings)
  {
    result := map[];
    assert Answers(result, names, bindings[..0]);
    hide Answers, Lookup;
    for i := 0 to |bindings|
      invariant Answers(result, names, bindings[..i])
    {
      var row := bindings[i];
      AnswersMore(result, names, bindings, i);
      if row.model in names && row.channel !in Lookup(result, row.model) {
        result := result[row.model := Lookup(result, row.model) + [row.channel]];
      }
    }
    assert bindings[..|bindings|] == bindings;
  }

  predicate IsExact(e: Entry) {
    e.Present? && e.m.rule == Exact
  }

  predicate IsRule(e: Entry) {
    e.Present? && e.m.rule != Exact
  }

  ghost predicate IndicesOf(entries: seq<Entry>, name: string, indices: seq<nat>) {
    && NoDuplicates(indices)
    && forall i: nat :: i in indices <==> i < |entries| && IsExact(entries[i]) && entries[i].m.name == name
  }

  /** The exact entries by name and the indices of the rule entries. */
  ghost predicate SplitUp(entries: seq<Entry>, exactIdx: map<string, seq<nat>>, ruleIndices: seq<nat>) {
    && NoDuplicates(ruleIndices)
    && (forall i: nat :: i in ruleIndices <==> i < |entries| && IsRule(entries[i]))
    && (forall n | n in exactIdx :: IndicesOf(entries, n, exactIdx[n]))
    && (forall i: nat | i < |entries| && IsExact(entries[i]) :: entries[i].m.name in exactIdx)
  }

  lemma IndicesOfMore(entries: seq<Entry>, i: nat, name: string, indices: seq<nat>)
    requires i < |entries| && IndicesOf(entries[..i], name, indices)
    ensures i !in indices
    ensures IndicesOf(entries[..i + 1], name,
                      if IsExact(entries[i]) && entries[i].m.name == name then indices + [i] else indices)
  {
  }

  method Split(entries: seq<Entry>) returns (exactIdx: map<string, seq<nat>>, ruleIndices: seq<nat>)
    ensures SplitUp(entries, exactIdx, ruleIndices)
  {
    exactIdx := map[];
    ruleIndices := [];
    for i := 0 to |entries|
      invariant SplitUp(entries[..i], exactIdx, ruleIndices)
    {
      var e := entries[i];
      forall n | n in exactIdx
        ensures IndicesOf(entries[..i + 1], n, if IsExact(e) && e.m.name == n then exactIdx[n] + [i] else exactIdx[n])
      {
        IndicesOfMore(entries, i, n, exactIdx[n]);
      }
      if e.Missing? {
        continue;
      }
      if e.m.rule == Exact {
        var had := if e.m.name in exactIdx then exactIdx[e.m.name] else [];
        if e.m.name !in exactIdx {
          IndicesOfMore(entries, i, e.m.name, had);
        }
        exactIdx := exactIdx[e.m.name := had + [i]];
      } else {
        assert i !in ruleIndices;
        ruleIndices := ruleIndices + [i];
      }
    }
    assert entries[..|entries|] == entries;
  }

  /** The exact entries whose names are done. */
  ghost predicate ExactDone(was: seq<Entry>, now: seq<Entry>, left: set<string>, more: seq<nat>, c: Catalog) {
    && |now| == |was|
    && forall i: nat | i < |was| ::
         now[i] == if IsExact(was[i]) && (was[i].m.name !in left || i in more)
                   then Present(ExactEnriched(was[i].m, c)) else was[i]
  }

  lemma ExactDoneMore(was: seq<Entry>, now: seq<Entry>, left: set<string>, more: seq<nat>, idx: nat, c: Catalog)
    requires ExactDone(was, now, left, more, c) && idx < |was| && IsExact(was[idx])
    ensures ExactDone(was, now[idx := Present(ExactEnriched(was[idx].m, c))], left, more + [idx], c)
  {
    hide ExactEnriched;
  }

  lemma ExactDoneName(was: seq<Entry>, now: seq<Entry>, left: set<string>, name: string, indices: seq<nat>, c: Catalog)
    requires ExactDone(was, now, left, indices, c) && IndicesOf(was, name, indices)
    ensures ExactDone(was, now, left - {name}, [], c)
  {
    hide ExactEnriched;
  }

  method EnrichExactOne(m: Model, channels: seq<BoundChannel>, c: Catalog) returns (now: Model)
    requires channels == ChannelsOf(c.bindings, m.name)
    ensures now == ExactEnriched(m, c)
  {
    now := m;
    if m.endpoints == Given("") {
      now := now.(endpoints := Encoded(Ordered(c.endpointsOf(m.name))));
    }
    now := now.(channels := Ordered(channels), groups := Ordered(c.groupsOf(m.name)),
                quotaTypes := c.quotaTypesOf(m.name));
  }

  method EnrichExact(models: array<Entry>, exactIdx: map<string, seq<nat>>, ghost ruleIndices: seq<nat>, c: Catalog)
    requires SplitUp(models[..], exactIdx, ruleIndices)
    modifies models
    ensures ExactDone(old(models[..]), models[..], {}, [], c)
  {
    ghost var was := models[..];
    var channelsByModel := GetBoundChannelsByModels(exactIdx.Keys, c.bindings);
    var left := exactIdx.Keys;
    hide ExactEnriched, ChannelsOf;
    while left != {}
      invariant left <= exactIdx.Keys
      invariant ExactDone(was, models[..], left, [], c)
      decreases |left|
    {
      var name: string :| name in left;
      var channels := Lookup(channelsByModel, name);
      var indices := exactIdx[name];
      assert IndicesOf(was, name, indices);
      for j := 0 to |indices|
        invariant ExactDone(was, models[..], left, indices[..j], c)
      {
        var idx := indices[j];
        assert idx in indices && idx !in indices[..j];
        assert models[..][idx] == was[idx];
        ExactDoneMore(was, models[..], left, indices[..j], idx, c);
        assert indices[..j + 1] == indices[..j] + [idx];
        var now := EnrichExactOne(models[idx].m, channels, c);
        ghost var before := models[..];
        models[idx] := Present(now);
        assert models[..] == before[idx := Present(now)];
      }
      assert indices[..|indices|] == indices;
      ExactDoneName(was, models[..], left, name, indices, c);
      left := left - {name};
    }
  }

  // ----- collecting what the rule entries match -----

  /** By index of the rule entry; an entry that matches nothing has no sets. */
  datatype Collected = Collected(names: map<nat, seq<string>>, endpoints: map<nat, set<string>>,
                                 groups: map<nat, set<string>>, quotas: map<nat, set<int>>)

  ghost predicate Collects(all: Collected, idx: nat, matched: seq<Price>) {
    if matched == [] then idx !in all.names && idx !in all.endpoints && idx !in all.groups && idx !in all.quotas
    else
      && idx in all.names && all.names[idx] == NamesOf(matched)
      && idx in all.endpoints && all.endpoints[idx] == EndpointsIn(matched)
      && idx in all.groups && all.groups[idx] == GroupsIn(matched)
      && idx in all.quotas && all.quotas[idx] == QuotaTypesIn(matched)
  }

  /** The two agree about the entry. */
  ghost predicate Same(a: Collected, b: Collected, i: nat) {
    && (i in a.names <==> i in b.names) && (i in a.names ==> a.names[i] == b.names[i])
    && (i in a.endpoints <==> i in b.endpoints) && (i in a.endpoints ==> a.endpoints[i] == b.endpoints[i])
    && (i in a.groups <==> i in b.groups) && (i in a.groups ==> a.groups[i] == b.groups[i])
    && (i in a.quotas <==> i in b.quotas) && (i in a.quotas ==> a.quotas[i] == b.quotas[i])
  }

  method AddPrice(all: Collected, idx: nat, p: Price, ghost matched: seq<Price>) returns (more: Collected)
    requires Collects(all, idx, matched)
    ensures Collects(more, idx, matched + [p])
    ensures more.names.Keys == all.names.Keys + {idx}
    ensures forall i | i != idx :: Same(all, more, i)
  {
    assert (matched + [p])[..|matched|] == matched;
    var names := if idx in all.names then all.names[idx] else [];
    var es := if idx in all.endpoints then all.endpoints[idx] else {};
    var gs := if idx in all.groups then all.groups[idx] else {};
    var qs := if idx in all.quotas then all.quotas[idx] else {};
    es := es + SetOf(p.endpoints);
    gs := gs + SetOf(p.groups);
    more := Collected(all.names[idx := names + [p.name]], all.endpoints[idx := es], all.groups[idx := gs],
                      all.quotas[idx := qs + {p.quotaType}]);
  }

  lemma MatchedMore(m: Model, prices: seq<Price>, k: nat)
    requires k < |prices|
    ensures Matched(m, prices[..k + 1])
         == Matched(m, prices[..k]) + if Matches(m.rule, m.name, prices[k].name) then [prices[k]] else []
  {
    assert prices[..k + 1] == prices[..k] + [prices[k]];
    FilterOfConcat(prices[..k], [prices[k]], MatchesOf(m));
  }

  ghost predicate CollectsUpto(all: Collected, entries: seq<Entry>, ruleIndices: seq<nat>, prices: seq<Price>, k: nat,
                               r: nat)
    requires forall i | i in ruleIndices :: i < |entries| && entries[i].Present?
    requires k <= |prices| && r <= |ruleIndices| && (r > 0 ==> k < |prices|)
  {
    && all.names.Keys <= SetOf(ruleIndices)
    && forall j: nat | j < |ruleIndices| ::
         && ruleIndices[j] in ruleIndices
         && Collects(all, ruleIndices[j],
                     Matched(entries[ruleIndices[j]].m, prices[..if j < r then k + 1 else k]))
  }

  lemma CollectsMore(all: Collected, more: Collected, entries: seq<Entry>, ruleIndices: seq<nat>, prices: seq<Price>,
                     k: nat, r: nat)
    requires NoDuplicates(ruleIndices) && forall i | i in ruleIndices :: i < |entries| && entries[i].Present?
    requires k < |prices| && r < |ruleIndices| && CollectsUpto(all, entries, ruleIndices, prices, k, r)
    requires Collects(more, ruleIndices[r], Matched(entries[ruleIndices[r]].m, prices[..k + 1]))
    requires && more.names.Keys <= all.names.Keys + {ruleIndices[r]}
             && forall i | i != ruleIndices[r] :: Same(all, more, i)
    ensures CollectsUpto(more, entries, ruleIndices, prices, k, r + 1)
  {
    hide Matched;
    forall j: nat | j < |ruleIndices|
      ensures Collects(more, ruleIndices[j],
                       Matched(entries[ruleIndices[j]].m, prices[..if j < r + 1 then k + 1 else k]))
    {
      if j != r {
        assert ruleIndices[j] != ruleIndices[r] && Same(all, more, ruleIndices[j]);
      }
    }
  }

  lemma CollectsRound(all: Collected, entries: seq<Entry>, ruleIndices: seq<nat>, prices: seq<Price>, k: nat)
    requires forall i | i in ruleIndices :: i < |entries| && entries[i].Present?
    requires k < |prices| && CollectsUpto(all, entries, ruleIndices, prices, k, |ruleIndices|)
    ensures CollectsUpto(all, entries, ruleIndices, prices, k + 1, 0)
  {
    hide Matched, Collects;
  }

  method VisitPrice(all: Collected, entries: seq<Entry>, ruleIndices: seq<nat>, prices: seq<Price>, k: nat, r: nat)
    returns (more: Collected)
    requires NoDuplicates(ruleIndices) && forall i | i in ruleIndices :: i < |entries| && entries[i].Present?
    requires k < |prices| && r < |ruleIndices| && CollectsUpto(all, entries, ruleIndices, prices, k, r)
    ensures CollectsUpto(more, entries, ruleIndices, prices, k, r + 1)
  {
    hide CollectsUpto, Collects, Matched, Matches, NoDuplicates, Same;
    var idx := ruleIndices[r];
    assert idx in ruleIndices;
    var m := entries[idx].m;
    CollectedSoFar(all, entries, ruleIndices, prices, k, r);
    MatchedMore(m, prices, k);
    more := all;
    if Matches(m.rule, m.name, prices[k].name) {
      more := AddPrice(all, idx, prices[k], Matched(m, prices[..k]));
    } else {
      assert Matched(m, prices[..k + 1]) == Matched(m, prices[..k]);
    }
    CollectsMore(all, more, entries, ruleIndices, prices, k, r);
  }

  method CollectMatches(entries: seq<Entry>, ruleIndices: seq<nat>, prices: seq<Price>) returns (all: Collected)
    requires NoDuplicates(ruleIndices) && forall i | i in ruleIndices :: i < |entries| && entries[i].Present?
    ensures CollectsUpto(all, entries, ruleIndices, prices, |prices|, 0)
  {
    all := Collected(map[], map[], map[], map[]);
    assert CollectsUpto(all, entries, ruleIndices, prices, 0, 0);
    hide CollectsUpto, NoDuplicates;
    for k := 0 to |prices|
      invariant CollectsUpto(all, entries, ruleIndices, prices, k, 0)
    {
      for r := 0 to |ruleIndices|
        invariant CollectsUpto(all, entries, ruleIndices, prices, k, r)
      {
        all := VisitPrice(all, entries, ruleIndices, prices, k, r);
      }
      CollectsRound(all, entries, ruleIndices, prices, k);
    }
  }

  lemma CollectedSoFar(all: Collected, entries: seq<Entry>, ruleIndices: seq<nat>, prices: seq<Price>, k: nat, r: nat)
    requires forall i | i in ruleIndices :: i < |entries| && entries[i].Present?
    requires k < |prices| && r < |ruleIndices| && CollectsUpto(all, entries, ruleIndices, prices, k, r)
    ensures Collects(all, ruleIndices[r], Matched(entries[ruleIndices[r]].m, prices[..k]))
    ensures forall i :: Same(all, all, i)
  {
  }

  // ----- writing the rule entries -----

  method MatchedNames(names: map<nat, seq<string>>) returns (all: set<string>)
    ensures forall idx, n | idx in names && n in names[idx] :: n in all
  {
    all := {};
    var left := names.Keys;
    while left != {}
      invariant left <= names.Keys
      invariant forall idx, n | idx in names && idx !in left && n in names[idx] :: n in all
      decreases |left|
    {
      var idx: nat :| idx in left;
      all := all + SetOf(names[idx]);
      left := left - {idx};
    }
  }

  method AddChannels(channelSet: map<string, BoundChannel>, list: seq<BoundChannel>, ghost before: set<BoundChannel>)
    returns (more: map<string, BoundChannel>)
    requires Keyed(channelSet, before)
    ensures Keyed(more, before + SetOf(list))
  {
    hide Keyed, ChannelKey;
    more := channelSet;
    assert before + SetOf(list[..0]) == before;
    for j := 0 to |list|
      invariant Keyed(more, before + SetOf(list[..j]))
    {
      KeyedMore(more, before + SetOf(list[..j]), list[j]);
      assert list[..j + 1] == list[..j] + [list[j]];
      assert before + SetOf(list[..j + 1]) == before + SetOf(list[..j]) + {list[j]};
      more := more[ChannelKey(list[j]) := list[j]];
    }
    assert list[..|list|] == list;
  }

  /** The union of the channels of the names, kept by their keys. */
  method UnionChannels(names: seq<string>, channelsByModel: map<string, seq<BoundChannel>>,
                       ghost bindings: seq<Binding>)
    returns (channels: set<BoundChannel>)
    requires Answers(channelsByModel, SetOf(names), bindings)
    ensures channels == ChannelsIn(bindings, names)
  {
    var channelSet: map<string, BoundChannel> := map[];
    assert Keyed(channelSet, ChannelsIn(bindings, names[..0]));
    hide Keyed, ChannelKey, ChannelsOf;
    for i := 0 to |names|
      invariant Keyed(channelSet, ChannelsIn(bindings, names[..i]))
    {
      var list := Lookup(channelsByModel, names[i]);
      assert list == ChannelsOf(bindings, names[i]);
      assert names[..i + 1][..i] == names[..i];
      channelSet := AddChannels(channelSet, list, ChannelsIn(bindings, names[..i]));
    }
    assert names[..|names|] == names;
    KeyedValues(channelSet, ChannelsIn(bindings, names));
    channels := channelSet.Values;
  }

  /** The map holds exactly these channels, each under its key. */
  ghost predicate Keyed(m: map<string, BoundChannel>, channels: set<BoundChannel>) {
    && (forall ch | ch in channels :: ChannelKey(ch) in m)
    && (forall key | key in m :: key == ChannelKey(m[key]) && m[key] in channels)
  }

  lemma KeyedMore(m: map<string, BoundChannel>, channels: set<BoundChannel>, ch: BoundChannel)
    requires Keyed(m, channels)
    ensures Keyed(m[ChannelKey(ch) := ch], channels + {ch})
  {
  }

  lemma KeyedValues(m: map<string, BoundChannel>, channels: set<BoundChannel>)
    requires Keyed(m, channels)
    ensures m.Values == channels
  {
    forall ch | ch in channels ensures ch in m.Values {
      ChannelKeyIsInjective(ch, m[ChannelKey(ch)]);
    }
  }

  method EnrichRule(m: Model, idx: nat, all: Collected, channelsByModel: map<string, seq<BoundChannel>>,
                    ghost c: Catalog)
    returns (now: Model)
    requires Collects(all, idx, Matched(m, c.prices))
    requires idx in all.names ==> Answers(channelsByModel, SetOf(all.names[idx]), c.bindings)
    ensures RuleEnriched(m, now, c)
  {
    now := m;
    if idx in all.endpoints && m.endpoints == Given("") {
      now := now.(endpoints := Encoded(Unordered(all.endpoints[idx])));
    }
    if idx in all.groups {
      now := now.(groups := Unordered(all.groups[idx]));
    }
    if idx in all.quotas {
      var sorted := SortedInts(all.quotas[idx]);
      now := now.(quotaTypes := sorted);
    }
    var names := if idx in all.names then all.names[idx] else [];
    var channels := UnionChannels(names, channelsByModel, c.bindings);
    if |channels| > 0 {
      now := now.(channels := Unordered(channels));
    }
    now := now.(matchedModels := names, matchedCount := |names|);
  }

  // ----- all entries -----

  ghost predicate RulesDone(was: seq<Entry>, now: seq<Entry>, done: seq<nat>, c: Catalog) {
    && |now| == |was|
    && forall i: nat | i < |was| ::
         if i in done then was[i].Present? && now[i].Present? && RuleEnriched(was[i].m, now[i].m, c)
         else now[i] == was[i]
  }

  lemma RulesDoneMore(was: seq<Entry>, now: seq<Entry>, done: seq<nat>, idx: nat, m: Model, c: Catalog)
    requires RulesDone(was, now, done, c) && idx < |was| && was[idx].Present? && RuleEnriched(was[idx].m, m, c)
    ensures RulesDone(was, now[idx := Present(m)], done + [idx], c)
  {
    hide RuleEnriched;
  }

  method EnrichRules(models: array<Entry>, ruleIndices: seq<nat>, c: Catalog)
    requires NoDuplicates(ruleIndices) && forall i | i in ruleIndices :: i < models.Length && models[i].Present?
    modifies models
    ensures RulesDone(old(models[..]), models[..], ruleIndices, c)
  {
    var entries := models[..];
    var all := CollectMatches(entries, ruleIndices, c.prices);
    var matched := MatchedNames(all.names);
    var channelsByModel := GetBoundChannelsByModels(matched, c.bindings);
    hide RuleEnriched, Collects, Matched;
    assert c.prices[..|c.prices|] == c.prices;
    for r := 0 to |ruleIndices|
      invariant RulesDone(entries, models[..], ruleIndices[..r], c)
    {
      var idx := ruleIndices[r];
      assert ruleIndices[..r + 1] == ruleIndices[..r] + [idx];
      assert idx in ruleIndices && idx !in ruleIndices[..r];
      assert models[..][idx] == entries[idx];
      var now := EnrichRule(models[idx].m, idx, all, channelsByModel, c);
      RulesDoneMore(entries, models[..], ruleIndices[..r], idx, now, c);
      ghost var before := models[..];
      models[idx] := Present(now);
      assert models[..] == before[idx := Present(now)];
    }
    assert ruleIndices[..|ruleIndices|] == ruleIndices;
  }

  /** Every entry becomes what it would become by itself. */
  method EnrichModels(models: array<Entry>, c: Catalog)
    modifies models
    ensures forall i: nat | i < models.Length :: Enriched(old(models[i]), models[i], c)
  {
    ghost var was := models[..];
    var exactIdx, ruleIndices := Split(models[..]);
    EnrichExact(models, exactIdx, ruleIndices, c);
    ghost var entries := models[..];
    assert forall i: nat | i < |was| && !IsExact(was[i]) :: entries[i] == was[i];
    hide ExactEnriched, RuleEnriched, IndicesOf;
    EnrichRules(models, ruleIndices, c);
    assert forall i: nat | i < |was| :: Enriched(was[i], models[..][i], c);
  }
}
