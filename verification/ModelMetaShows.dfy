/** What an enriched catalogue entry shows, in terms of names, prices and bindings. */
module ModelMetaShows {
  import opened Lists
  import opened ModelMeta

  /** The names that a rule entry stands for: those that begin with its name, end with it or contain it. */
  ghost predicate StandsFor(m: Model, name: string) {
    match m.rule
    case Prefix => exists rest :: name == m.name + rest
    case Suffix => exists front :: name == front + m.name
    case Contains => exists front, rest :: name == front + m.name + rest
    case Exact => false
    case NoRule => false
  }

  lemma PrefixMeans(part: string, name: string)
    ensures part <= name <==> exists rest :: name == part + rest
  {
    if part <= name {
      assert name == part + name[|part|..];
    }
  }

  lemma SuffixMeans(part: string, name: string)
    ensures |part| <= |name| && name[|name| - |part|..] == part <==> exists front :: name == front + part
  {
    if |part| <= |name| && name[|name| - |part|..] == part {
      assert name == name[..|name| - |part|] + part;
    }
    if front :| name == front + part {
      assert name[|front|..] == part;
    }
  }

  lemma ContainsMeans(part: string, name: string)
    ensures HasSubstring(name, part) <==> exists front, rest :: name == front + part + rest
  {
    SubstringMeans(name, part);
    if i: nat :| i + |part| <= |name| && name[i..][..|part|] == part {
      assert name == name[..i] + part + name[i + |part|..];
    }
    if front, rest :| name == front + part + rest {
      assert name == front + (part + rest);
      assert name[|front|..] == part + rest;
      assert (part + rest)[..|part|] == part;
    }
  }

  lemma MatchesMeans(m: Model, p: Price)
    ensures MatchesOf(m)(p) <==> StandsFor(m, p.name)
  {
    match m.rule {
      case Prefix => PrefixMeans(m.name, p.name);
      case Suffix => SuffixMeans(m.name, p.name);
      case Contains => ContainsMeans(m.name, p.name);
      case Exact =>
      case NoRule =>
    }
  }

  lemma MatchedMeans(m: Model, prices: seq<Price>)
    ensures forall p :: p in Matched(m, prices) <==> p in prices && StandsFor(m, p.name)
  {
    forall p ensures p in Matched(m, prices) <==> p in prices && StandsFor(m, p.name) {
      MatchesMeans(m, p);
    }
  }

  lemma {:induction false} NamesOfAre(prices: seq<Price>)
    ensures forall i | 0 <= i < |prices| :: NamesOf(prices)[i] == prices[i].name
  {
    if prices != [] {
      NamesOfAre(prices[..|prices| - 1]);
    }
  }

  /** The entry lists the priced names that it stands for. */
  lemma MatchedModelsAre(m: Model, now: Model, c: Catalog, n: string)
    requires Enriched(Present(m), Present(now), c) && m.rule != Exact
    ensures n in now.matchedModels <==> StandsFor(m, n) && exists p :: p in c.prices && p.name == n
    ensures now.matchedCount == |now.matchedModels|
    ensures now.name == m.name && now.rule == m.rule
  {
    var matched := Matched(m, c.prices);
    MatchedMeans(m, c.prices);
    NamesOfAre(matched);
    hide Matched, StandsFor, NamesOf;
    if n in now.matchedModels {
      var i :| 0 <= i < |NamesOf(matched)| && NamesOf(matched)[i] == n;
      assert matched[i] in matched;
    }
    if p :| p in c.prices && p.name == n && StandsFor(m, n) {
      assert p in matched;
      var i :| 0 <= i < |matched| && matched[i] == p;
      assert NamesOf(matched)[i] == n;
    }
  }

  /** Some priced name is one that the entry stands for. */
  ghost predicate AnyPrice(m: Model, c: Catalog) {
    exists p :: p in c.prices && StandsFor(m, p.name)
  }

  lemma AnyPriceMeans(m: Model, c: Catalog)
    ensures AnyPrice(m, c) <==> Matched(m, c.prices) != []
  {
    MatchedMeans(m, c.prices);
    if Matched(m, c.prices) != [] {
      assert Matched(m, c.prices)[0] in Matched(m, c.prices);
    }
  }

  /** With such a price the entry shows the union of the groups, the ascending union of the quota types and, if it had
      no endpoints, the union of the endpoints; without one it keeps what it had. */
  lemma UnionsAre(m: Model, now: Model, c: Catalog)
    requires Enriched(Present(m), Present(now), c) && m.rule != Exact
    ensures !AnyPrice(m, c) ==>
              now.groups == m.groups && now.quotaTypes == m.quotaTypes && now.endpoints == m.endpoints
    ensures AnyPrice(m, c) ==>
              && now.groups.Unordered?
              && (forall g :: g in now.groups.elements <==>
                    exists p :: p in c.prices && StandsFor(m, p.name) && g in p.groups)
              && StrictlyAscending(now.quotaTypes)
              && (forall q :: q in now.quotaTypes <==>
                    exists p :: p in c.prices && StandsFor(m, p.name) && p.quotaType == q)
    ensures m.endpoints != Given("") ==> now.endpoints == m.endpoints
    ensures AnyPrice(m, c) && m.endpoints == Given("") ==>
              && now.endpoints.Encoded? && now.endpoints.types.Unordered?
              && forall e :: e in now.endpoints.types.elements <==>
                   exists p :: p in c.prices && StandsFor(m, p.name) && e in p.endpoints
  {
    var matched := Matched(m, c.prices);
    AnyPriceMeans(m, c);
    MatchedMeans(m, c.prices);
    hide StandsFor, Matched, AnyPrice;
    forall g ensures g in GroupsIn(matched) <==> exists p :: p in c.prices && StandsFor(m, p.name) && g in p.groups {
      UnionMembers(matched, "", g, 0);
    }
    forall q ensures q in QuotaTypesIn(matched)
                <==> exists p :: p in c.prices && StandsFor(m, p.name) && p.quotaType == q {
      UnionMembers(matched, "", "", q);
    }
    forall e ensures e in EndpointsIn(matched)
                <==> exists p :: p in c.prices && StandsFor(m, p.name) && e in p.endpoints {
      UnionMembers(matched, e, "", 0);
    }
    hide GroupsIn, QuotaTypesIn, EndpointsIn;
  }

  lemma {:induction false} ChannelsInAre(bindings: seq<Binding>, names: seq<string>, ch: BoundChannel)
    ensures ch in ChannelsIn(bindings, names) <==> exists n :: n in names && Binding(n, ch) in bindings
  {
    if names != [] {
      var front, last := names[..|names| - 1], names[|names| - 1];
      assert names == front + [last];
      ChannelsInAre(bindings, front, ch);
      ChannelsOfAreThose(bindings, last);
      hide ChannelsOf;
      assert ch in ChannelsIn(bindings, names)
        <==> ch in ChannelsIn(bindings, front) || Binding(last, ch) in bindings;
      if Binding(last, ch) in bindings {
        assert last in names;
      }
      if n :| n in names && Binding(n, ch) in bindings {
        assert n in front || n == last;
      }
      if n :| n in front && Binding(n, ch) in bindings {
        assert n in names;
      }
    }
  }

  /** The channel is bound to a priced name that the entry stands for. */
  ghost predicate Serves(m: Model, c: Catalog, ch: BoundChannel) {
    exists p :: p in c.prices && StandsFor(m, p.name) && Binding(p.name, ch) in c.bindings
  }

  lemma ServesMeans(m: Model, c: Catalog, ch: BoundChannel)
    ensures ch in ChannelsIn(c.bindings, NamesOf(Matched(m, c.prices))) <==> Serves(m, c, ch)
  {
    var matched := Matched(m, c.prices);
    var names := NamesOf(matched);
    MatchedMeans(m, c.prices);
    NamesOfAre(matched);
    ChannelsInAre(c.bindings, names, ch);
    hide StandsFor, Matched, NamesOf, ChannelsIn;
    if n :| n in names && Binding(n, ch) in c.bindings {
      var i :| 0 <= i < |names| && names[i] == n;
      assert matched[i] in matched;
    }
    if p :| p in c.prices && StandsFor(m, p.name) && Binding(p.name, ch) in c.bindings {
      assert p in matched;
      var i :| 0 <= i < |matched| && matched[i] == p;
      assert names[i] == p.name && p.name in names;
    }
  }

  /** The entry shows the channels of the priced names that it stands for, or what it had if there are none. */
  lemma ChannelsAre(m: Model, now: Model, c: Catalog)
    requires Enriched(Present(m), Present(now), c) && m.rule != Exact
    ensures if exists ch :: Serves(m, c, ch)
            then now.channels.Unordered? && forall ch :: ch in now.channels.elements <==> Serves(m, c, ch)
            else now.channels == m.channels
  {
    var channels := ChannelsIn(c.bindings, NamesOf(Matched(m, c.prices)));
    forall ch ensures ch in channels <==> Serves(m, c, ch) {
      ServesMeans(m, c, ch);
    }
    hide Serves, Matched, NamesOf, ChannelsIn, StandsFor;
    if channels != {} {
      var ch :| ch in channels;
      assert Serves(m, c, ch);
    }
  }

  /** An exact entry shows its own channels, each once, and what the caches have for its name; endpoints that it has
      are kept. */
  lemma ExactEntryShows(m: Model, now: Model, c: Catalog)
    requires Enriched(Present(m), Present(now), c) && m.rule == Exact
    ensures now.channels.Ordered? && (forall ch :: ch in now.channels.list <==> Binding(m.name, ch) in c.bindings)
    ensures forall i, j | 0 <= i < j < |now.channels.list| :: now.channels.list[i] != now.channels.list[j]
    ensures now.groups == Ordered(c.groupsOf(m.name)) && now.quotaTypes == c.quotaTypesOf(m.name)
    ensures now.endpoints == if m.endpoints == Given("") then Encoded(Ordered(c.endpointsOf(m.name))) else m.endpoints
    ensures now.name == m.name && now.rule == m.rule
    ensures now.matchedModels == m.matchedModels && now.matchedCount == m.matchedCount
  {
    ChannelsOfAreThose(c.bindings, m.name);
    hide ChannelsOf;
  }
}
