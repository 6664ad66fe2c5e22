/** The developer's usage listing: which tokens it names and which it calls historical. */
module ConnectedAppUsage {
  import opened ConnectedAppStore
  import opened ConnectedAppRuns
  import opened ConnectedAppSessions
  import opened Lists

  datatype BindingRow = BindingRow(device: Device, binding: Binding)

  datatype AttributionRow = AttributionRow(tokenId: nat, attribution: Attribution)

  datatype UsageStatus = Historical | Active | Revoked

  datatype UsageToken = UsageToken(user: nat, status: UsageStatus)

  function BindingStatus(b: Binding): UsageStatus {
    if b.active then Active else Revoked
  }

  ghost predicate UniqueBindingIds(bindings: seq<BindingRow>) {
    forall i, j | 0 <= i < j < |bindings| :: bindings[i].binding.id != bindings[j].binding.id
  }

  ghost predicate UniqueTokenIds(attributions: seq<AttributionRow>) {
    forall i, j | 0 <= i < j < |attributions| :: attributions[i].tokenId != attributions[j].tokenId
  }

  /** The binding rows by id. */
  function ById(bindings: seq<BindingRow>): map<nat, Binding> {
    if bindings == [] then map[]
    else
      var row := bindings[|bindings| - 1];
      ById(bindings[..|bindings| - 1])[row.binding.id := row.binding]
  }

  /** An attributed token has its binding's status while it is still the token of that binding. */
  function AttributedStatus(a: AttributionRow, byBinding: map<nat, Binding>): UsageStatus {
    var id := a.attribution.bindingId;
    if id in byBinding && byBinding[id].tokenId == a.tokenId then BindingStatus(byBinding[id]) else Historical
  }

  /** A token is added unless it is listed already. */
  function Added(byId: map<nat, UsageToken>, id: nat, token: UsageToken): map<nat, UsageToken> {
    if id == 0 || id in byId then byId else byId[id := token]
  }

  function AttributedTokens(attributions: seq<AttributionRow>, byBinding: map<nat, Binding>): map<nat, UsageToken> {
    if attributions == [] then map[]
    else
      var row := attributions[|attributions| - 1];
      Added(AttributedTokens(attributions[..|attributions| - 1], byBinding), row.tokenId,
            UsageToken(row.attribution.device.user, AttributedStatus(row, byBinding)))
  }

  function WithBound(byId: map<nat, UsageToken>, bindings: seq<BindingRow>): map<nat, UsageToken> {
    if bindings == [] then byId
    else
      var row := bindings[|bindings| - 1];
      Added(WithBound(byId, bindings[..|bindings| - 1]), row.binding.tokenId,
            UsageToken(row.device.user, BindingStatus(row.binding)))
  }

  /** The attributed tokens, then those of the bindings. */
  function Listing(bindings: seq<BindingRow>, attributions: seq<AttributionRow>): map<nat, UsageToken> {
    WithBound(AttributedTokens(attributions, ById(bindings)), bindings)
  }

  ghost predicate SameKeys(tokenIds: seq<nat>, byId: map<nat, UsageToken>) {
    NoDuplicates(tokenIds) && forall t :: t in tokenIds <==> t in byId
  }

  method AddToken(tokenIds: seq<nat>, byId: map<nat, UsageToken>, id: nat, token: UsageToken)
    returns (ids: seq<nat>, tokens: map<nat, UsageToken>)
    requires SameKeys(tokenIds, byId)
    ensures SameKeys(ids, tokens) && tokens == Added(byId, id, token)
  {
    ids, tokens := tokenIds, byId;
    if id == 0 {
      return;
    }
    if id in byId {
      return;
    }
    ids := ids + [id];
    tokens := tokens[id := token];
  }

  /** The ids in the order they are listed, each once, and what is known of each. */
  method UsageTokens(bindings: seq<BindingRow>, attributions: seq<AttributionRow>)
    returns (tokenIds: seq<nat>, byId: map<nat, UsageToken>)
    ensures SameKeys(tokenIds, byId) && byId == Listing(bindings, attributions)
  {
    var byBinding: map<nat, Binding> := map[];
    for i := 0 to |bindings|
      invariant byBinding == ById(bindings[..i])
    {
      assert bindings[..i + 1][..i] == bindings[..i];
      byBinding := byBinding[bindings[i].binding.id := bindings[i].binding];
    }
    assert bindings[..|bindings|] == bindings && attributions[..|attributions|] == attributions;
    tokenIds, byId := [], map[];
    for i := 0 to |attributions|
      invariant SameKeys(tokenIds, byId) && byId == AttributedTokens(attributions[..i], byBinding)
    {
      var row := attributions[i];
      var status := Historical;
      if row.attribution.bindingId in byBinding && byBinding[row.attribution.bindingId].tokenId == row.tokenId {
        status := BindingStatus(byBinding[row.attribution.bindingId]);
      }
      assert attributions[..i + 1][..i] == attributions[..i];
      tokenIds, byId := AddToken(tokenIds, byId, row.tokenId, UsageToken(row.attribution.device.user, status));
    }
    ghost var attributed := byId;
    for i := 0 to |bindings|
      invariant SameKeys(tokenIds, byId) && byId == WithBound(attributed, bindings[..i])
    {
      var row := bindings[i];
      assert bindings[..i + 1][..i] == bindings[..i];
      tokenIds, byId := AddToken(tokenIds, byId, row.binding.tokenId,
                                 UsageToken(row.device.user, BindingStatus(row.binding)));
    }
  }

  // ----- what the loops collect -----

  lemma {:induction false} ByIdFinds(bindings: seq<BindingRow>, i: nat)
    requires UniqueBindingIds(bindings) && i < |bindings|
    ensures bindings[i].binding.id in ById(bindings) && ById(bindings)[bindings[i].binding.id] == bindings[i].binding
    decreases |bindings|
  {
    if i < |bindings| - 1 {
      ByIdFinds(bindings[..|bindings| - 1], i);
    }
  }

  lemma {:induction false} AttributedFinds(attributions: seq<AttributionRow>, byBinding: map<nat, Binding>, i: nat)
    requires UniqueTokenIds(attributions) && i < |attributions| && attributions[i].tokenId > 0
    ensures var row := attributions[i];
            && row.tokenId in AttributedTokens(attributions, byBinding)
            && AttributedTokens(attributions, byBinding)[row.tokenId]
               == UsageToken(row.attribution.device.user, AttributedStatus(row, byBinding))
    decreases |attributions|
  {
    var n := |attributions| - 1;
    if i < n {
      AttributedFinds(attributions[..n], byBinding, i);
    } else {
      NotAttributedBefore(attributions[..n], byBinding, attributions[n].tokenId);
    }
  }

  lemma {:induction false} NotAttributedBefore(attributions: seq<AttributionRow>, byBinding: map<nat, Binding>, id: nat)
    requires forall i | 0 <= i < |attributions| :: attributions[i].tokenId != id
    ensures id !in AttributedTokens(attributions, byBinding)
    decreases |attributions|
  {
    if attributions != [] {
      NotAttributedBefore(attributions[..|attributions| - 1], byBinding, id);
    }
  }

  lemma {:induction false} AttributedComesFrom(attributions: seq<AttributionRow>, byBinding: map<nat, Binding>, id: nat)
    returns (i: nat)
    requires id in AttributedTokens(attributions, byBinding)
    ensures i < |attributions| && attributions[i].tokenId == id && id > 0
    decreases |attributions|
  {
    var n := |attributions| - 1;
    if id in AttributedTokens(attributions[..n], byBinding) {
      i := AttributedComesFrom(attributions[..n], byBinding, id);
    } else {
      i := n;
    }
  }

  /** The bindings add only tokens of theirs, and change nothing that is there. */
  lemma {:induction false} WithBoundAdds(byId: map<nat, UsageToken>, bindings: seq<BindingRow>, id: nat)
    ensures id in byId ==> id in WithBound(byId, bindings) && WithBound(byId, bindings)[id] == byId[id]
    ensures id in WithBound(byId, bindings) ==>
              id in byId || exists i :: 0 <= i < |bindings| && bindings[i].binding.tokenId == id
    decreases |bindings|
  {
    if bindings != [] {
      var n := |bindings| - 1;
      WithBoundAdds(byId, bindings[..n], id);
      if i :| 0 <= i < n && bindings[..n][i].binding.tokenId == id {
        assert bindings[i].binding.tokenId == id;
      }
      assert bindings[n].binding.tokenId == bindings[n].binding.tokenId;
    }
  }

  // ----- the listing of a reachable store -----

  /** The rows of one app, each once. */
  ghost predicate AppRows(s: Store, app: nat, bindings: seq<BindingRow>, attributions: seq<AttributionRow>) {
    && UniqueBindingIds(bindings) && UniqueTokenIds(attributions)
    && (forall i | 0 <= i < |bindings| ::
          var row := bindings[i];
          row.device.app == app && row.device in s.bindings && s.bindings[row.device] == row.binding)
    && (forall d | d in s.bindings && d.app == app :: BindingRow(d, s.bindings[d]) in bindings)
    && (forall i | 0 <= i < |attributions| ::
          var row := attributions[i];
          && row.attribution.device.app == app
          && row.tokenId in s.attributions && s.attributions[row.tokenId] == row.attribution)
    && (forall t | t in s.attributions && s.attributions[t].device.app == app ::
          AttributionRow(t, s.attributions[t]) in attributions)
  }

  /** The listing names exactly the tokens ever issued for the app. */
  lemma ListsIssuedToken(s: Store, app: nat, bindings: seq<BindingRow>, attributions: seq<AttributionRow>, t: nat)
    requires TokenInv(s) && AppRows(s, app, bindings, attributions)
    ensures t in Listing(bindings, attributions) <==> t in s.issued && s.issued[t].app == app
  {
    var byBinding := ById(bindings);
    WithBoundAdds(AttributedTokens(attributions, byBinding), bindings, t);
    if t in s.issued && s.issued[t].app == app {
      var row := AttributionRow(t, s.attributions[t]);
      assert row in attributions;
      var i :| 0 <= i < |attributions| && attributions[i] == row;
      AttributedFinds(attributions, byBinding, i);
    } else if t in AttributedTokens(attributions, byBinding) {
      var i := AttributedComesFrom(attributions, byBinding, t);
    }
  }

  /** A listed token is historical exactly when it is no longer the current token of its device's binding. */
  lemma HistoricalMeansReplaced(s: Store, app: nat, bindings: seq<BindingRow>, attributions: seq<AttributionRow>,
                                t: nat)
    requires TokenInv(s) && AppRows(s, app, bindings, attributions)
    requires t in s.issued && s.issued[t].app == app
    ensures t in Listing(bindings, attributions) && s.issued[t] in s.bindings
    ensures Listing(bindings, attributions)[t]
         == UsageToken(s.issued[t].user,
                       var current := s.bindings[s.issued[t]];
                       if current.tokenId == t then BindingStatus(current) else Historical)
  {
    var d := s.issued[t];
    assert s.attributions[t].device == d && d in s.bindings && s.bindings[d].id == s.attributions[t].bindingId;
    var row, current := AttributionRow(t, s.attributions[t]), BindingRow(d, s.bindings[d]);
    assert row in attributions && current in bindings;
    assert t > 0;
    hide TokenInv;
    var i :| 0 <= i < |attributions| && attributions[i] == row;
    var j :| 0 <= j < |bindings| && bindings[j] == current;
    hide AppRows;
    ByIdFinds(bindings, j);
    AttributedFinds(attributions, ById(bindings), i);
    WithBoundAdds(AttributedTokens(attributions, ById(bindings)), bindings, t);
  }

  /** Across any number of rotations and revocations: what a listing of a reachable store says. */
  lemma ReachableListing(s: Store, flows: Flows, app: nat, bindings: seq<BindingRow>, attributions: seq<AttributionRow>,
                         t: nat)
    requires Reachable(s, flows) && AppRows(s, app, bindings, attributions)
    ensures var listing := Listing(bindings, attributions);
            && (t in listing <==> t in s.issued && s.issued[t].app == app)
            && (t in listing ==> s.issued[t] in s.bindings)
            && (t in listing ==>
                  var current := s.bindings[s.issued[t]];
                  && listing[t].user == s.issued[t].user
                  && (listing[t].status == Historical <==> current.tokenId != t)
                  && (listing[t].status == Active <==> current.tokenId == t && current.active)
                  && (listing[t].status == Revoked <==> current.tokenId == t && !current.active))
  {
    ReachableInv(s, flows);
    assert TokenInv(s);
    hide TokenInv, Reachable, Inv, AppRows, Listing;
    ListsIssuedToken(s, app, bindings, attributions, t);
    if t in s.issued && s.issued[t].app == app {
      HistoricalMeansReplaced(s, app, bindings, attributions, t);
    }
  }
}
