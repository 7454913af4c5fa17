/**
 * `acceptFriendRequest(myUsername, friendUsername)` of
 * client/src/Functions/acceptFriendRequest.ts: three requests to the server
 * in a fixed order -- accept(me, friend), accept(friend, me), then
 * decline(me, friend) -- inside one try/catch that rethrows.
 *
 * Which requests fail is a parameter: a failing request reaches no handler.
 * The third call is not awaited, so its failure never reaches the `catch`.
 * Beside the client method sit the per-pair states the three routes move
 * between (none, pending, half-friends, friends) and the facts about them.
 */
module AcceptFriend {
  import opened Lists
  import opened UserModel
  import opened Server

  /** The three requests, in the order they are sent. */
  datatype Step = AcceptMine | AcceptTheirs | DeclineMine

  /** How a call of `acceptFriendRequest` ends: it resolves, or it rethrows the error of one request. */
  datatype Outcome = Resolved | Rethrown(at: Step)

  /** The collection after all three requests have been handled. */
  function Protocol(accounts: map<string, Account>, me: string, friend: string): map<string, Account> {
    Decline(Accept(Accept(accounts, me, friend), friend, me), me, friend)
  }

  /** `acceptFriendRequest(me, friend)` against the server's collection. */
  method AcceptFriendRequest(server: UserStore, me: string, friend: string, failing: set<Step>)
    returns (outcome: Outcome)
    requires server.Valid()
    modifies server`accounts
    ensures server.Valid()
    ensures AcceptMine in failing ==>
      outcome == Rethrown(AcceptMine) && server.accounts == old(server.accounts)
    ensures AcceptMine !in failing && AcceptTheirs in failing ==>
      outcome == Rethrown(AcceptTheirs) && server.accounts == Accept(old(server.accounts), me, friend)
    ensures AcceptMine !in failing && AcceptTheirs !in failing ==>
      && outcome == Resolved
      && server.accounts == if DeclineMine in failing
                            then Accept(Accept(old(server.accounts), me, friend), friend, me)
                            else Protocol(old(server.accounts), me, friend)
  {
    if AcceptMine in failing {
      return Rethrown(AcceptMine);
    }
    var mine := AcceptRoute(server, me, friend);
    if AcceptTheirs in failing {
      return Rethrown(AcceptTheirs);
    }
    var theirs := AcceptRoute(server, friend, me);
    if DeclineMine !in failing {
      var declined := DeclineRoute(server, me, friend);
    }
    outcome := Resolved;
  }

  /** The protocol's effect on the friends lists: each side gains the other. */
  lemma ProtocolFriendsLists(accounts: map<string, Account>, me: string, friend: string)
    ensures var after := Protocol(accounts, me, friend);
      && after.Keys == accounts.Keys
      && forall u, x | u in accounts ::
           x in after[u].friends <==> x in accounts[u].friends || (u == me && x == friend) || (u == friend && x == me)
  {
    var a1 := Accept(accounts, me, friend);
    var a2 := Accept(a1, friend, me);
    var after := Decline(a2, me, friend);
    forall u, x | u in accounts
      ensures x in after[u].friends <==> x in accounts[u].friends || (u == me && x == friend) || (u == friend && x == me)
    {
      assert after[u].friends == a2[u].friends;
      assert x in a1[u].friends <==> x in accounts[u].friends || (u == me && x == friend);
    }
  }

  /** Everything but the friends lists: only `me`'s requests lose the friend. */
  lemma ProtocolKeepsTheRest(accounts: map<string, Account>, me: string, friend: string)
    ensures var after := Protocol(accounts, me, friend);
      && (forall u | u in accounts && u != me && u != friend :: after[u] == accounts[u])
      && (forall u | u in accounts && u != me :: after[u].friendsRequests == accounts[u].friendsRequests)
      && (me in accounts ==> after[me].friendsRequests == Pull(accounts[me].friendsRequests, friend))
      && (forall u | u in accounts ::
            after[u].favorites == accounts[u].favorites && after[u].id == accounts[u].id
            && after[u].email == accounts[u].email && after[u].password == accounts[u].password)
  {
    var a1 := Accept(accounts, me, friend);
    var a2 := Accept(a1, friend, me);
    var after := Decline(a2, me, friend);
    forall u | u in accounts
      ensures a2[u] == accounts[u].(friends := a2[u].friends)
    {
      assert a1[u] == accounts[u].(friends := a1[u].friends);
    }
    forall u | u in accounts
      ensures after[u] == a2[u].(friendsRequests := after[u].friendsRequests)
    {
    }
  }

  /** The friends lists after the protocol: each side gains the other, nothing else changes. */
  lemma ProtocolFriends(accounts: map<string, Account>, me: string, friend: string)
    ensures var after := Protocol(accounts, me, friend);
      && after.Keys == accounts.Keys
      && (forall u | u in accounts && u != me && u != friend :: after[u] == accounts[u])
      && (forall u, x | u in accounts ::
            x in after[u].friends <==> x in accounts[u].friends || (u == me && x == friend) || (u == friend && x == me))
      && (forall u | u in accounts && u != me :: after[u].friendsRequests == accounts[u].friendsRequests)
      && (me in accounts ==> after[me].friendsRequests == Pull(accounts[me].friendsRequests, friend))
      && (forall u | u in accounts ::
            after[u].favorites == accounts[u].favorites && after[u].id == accounts[u].id
            && after[u].email == accounts[u].email && after[u].password == accounts[u].password)
  {
    ProtocolFriendsLists(accounts, me, friend);
    ProtocolKeepsTheRest(accounts, me, friend);
  }

  /** After all three requests: each lists the other as a friend, and the request is no longer pending. */
  lemma ProtocolMakesFriends(accounts: map<string, Account>, me: string, friend: string)
    requires me in accounts && friend in accounts
    ensures var after := Protocol(accounts, me, friend);
      friend in after[me].friends && me in after[friend].friends && friend !in after[me].friendsRequests
  {
    ProtocolFriends(accounts, me, friend);
  }

  /** Running the whole protocol twice leaves the collection as running it once. */
  lemma {:induction false} ProtocolIdempotent(accounts: map<string, Account>, me: string, friend: string)
    ensures Protocol(Protocol(accounts, me, friend), me, friend) == Protocol(accounts, me, friend)
  {
    var once := Protocol(accounts, me, friend);
    var a1 := Accept(once, me, friend);
    var a2 := Accept(a1, friend, me);
    ProtocolFriends(accounts, me, friend);
    assert a1 == once;
    assert a2 == once;
    DeclineAbsent(once, me, friend);
  }

  /** Friendship as the two accounts record it: each lists the other. */
  ghost predicate Symmetric(accounts: map<string, Account>) {
    forall a, b | a in accounts && b in accounts :: b in accounts[a].friends <==> a in accounts[b].friends
  }

  /** A completed protocol keeps the friend relation symmetric. */
  lemma ProtocolKeepsSymmetry(accounts: map<string, Account>, me: string, friend: string)
    requires Symmetric(accounts) && me in accounts && friend in accounts
    ensures Symmetric(Protocol(accounts, me, friend))
  {
    ProtocolFriends(accounts, me, friend);
  }

  /** Where a pair stands, read from the two accounts. */
  datatype Relation = NoRelation | Pending | HalfFriends | Friends

  /** How `recipient` stands towards `sender` and the request `sender` may have sent. */
  function Status(accounts: map<string, Account>, sender: string, recipient: string): (s: Relation)
    requires sender in accounts && recipient in accounts
    ensures s == Friends <==> recipient in accounts[sender].friends && sender in accounts[recipient].friends
    ensures s == HalfFriends <==> (recipient in accounts[sender].friends) != (sender in accounts[recipient].friends)
    ensures s == Pending <==>
      && recipient !in accounts[sender].friends && sender !in accounts[recipient].friends
      && sender in accounts[recipient].friendsRequests
  {
    var forward := recipient in accounts[sender].friends;
    var backward := sender in accounts[recipient].friends;
    if forward && backward then Friends
    else if forward || backward then HalfFriends
    else if sender in accounts[recipient].friendsRequests then Pending
    else NoRelation
  }

  /** add-friend moves a pair with no relation to a pending request. */
  lemma SendRequestPends(accounts: map<string, Account>, sender: string, recipient: string)
    requires sender in accounts && recipient in accounts
    requires Status(accounts, sender, recipient) == NoRelation
    ensures Status(AddFriendRequest(accounts, sender, recipient), sender, recipient) == Pending
  {
  }

  /** The completed protocol moves a pending request to friends. */
  lemma AcceptCompletes(accounts: map<string, Account>, sender: string, recipient: string)
    requires sender in accounts && recipient in accounts
    requires Status(accounts, sender, recipient) == Pending
    ensures Status(Protocol(accounts, recipient, sender), sender, recipient) == Friends
    ensures sender !in Protocol(accounts, recipient, sender)[recipient].friendsRequests
  {
    ProtocolMakesFriends(accounts, recipient, sender);
  }

  /** decline moves a pending request back to no relation. */
  lemma DeclineClears(accounts: map<string, Account>, sender: string, recipient: string)
    requires sender in accounts && recipient in accounts
    requires Status(accounts, sender, recipient) == Pending
    ensures Status(Decline(accounts, recipient, sender), sender, recipient) == NoRelation
  {
  }

  /**
   * When the second request fails, the pair is left half-friended: the
   * recipient lists the sender, the sender does not list the recipient, and
   * the request is still pending.
   */
  lemma SecondStepFailureHalfFriends(accounts: map<string, Account>, sender: string, recipient: string)
    requires sender in accounts && recipient in accounts && sender != recipient
    requires Status(accounts, sender, recipient) == Pending
    ensures var after := Accept(accounts, recipient, sender);
      && sender in after[recipient].friends
      && recipient !in after[sender].friends
      && sender in after[recipient].friendsRequests
      && Status(after, sender, recipient) == HalfFriends
  {
  }

  /** The half-friend window breaks the symmetry of the friend relation. */
  lemma HalfFriendsAsymmetric(accounts: map<string, Account>, sender: string, recipient: string)
    requires sender in accounts && recipient in accounts && sender != recipient
    requires Status(accounts, sender, recipient) == Pending
    ensures !Symmetric(Accept(accounts, recipient, sender))
  {
    SecondStepFailureHalfFriends(accounts, sender, recipient);
  }

  /** Friends stay friends: no route removes anyone from a friends list. */
  lemma FriendsIsTerminal(accounts: map<string, Account>, sender: string, recipient: string, a: string, b: string)
    requires sender in accounts && recipient in accounts
    requires Status(accounts, sender, recipient) == Friends
    ensures Status(AddFriendRequest(accounts, a, b), sender, recipient) == Friends
    ensures Status(Decline(accounts, a, b), sender, recipient) == Friends
    ensures Status(Accept(accounts, a, b), sender, recipient) == Friends
  {
    var asked := AddFriendRequest(accounts, a, b);
    assert asked[sender].friends == accounts[sender].friends && asked[recipient].friends == accounts[recipient].friends;
    var declined := Decline(accounts, a, b);
    assert declined[sender].friends == accounts[sender].friends && declined[recipient].friends == accounts[recipient].friends;
    var accepted := Accept(accounts, a, b);
    assert recipient in accepted[sender].friends && sender in accepted[recipient].friends;
  }

  /** The scenario: bob asks alice, alice accepts; then each lists the other and nothing is pending. */
  lemma AliceAndBob(alice: Account, bob: Account)
    requires alice.username == "alice" && bob.username == "bob"
    requires alice.friends == [] && alice.friendsRequests == [] && bob.friends == [] && bob.friendsRequests == []
    ensures var start := map["alice" := alice, "bob" := bob];
      var asked := AddFriendRequest(start, "bob", "alice");
      var done := Protocol(asked, "alice", "bob");
      && FriendRequestsReply(asked, "alice") == Reply(200, Names(["bob"]))
      && FriendsReply(done, "alice") == Reply(200, Names(["bob"]))
      && FriendsReply(done, "bob") == Reply(200, Names(["alice"]))
      && FriendRequestsReply(done, "alice") == Reply(200, Names([]))
  {
    var start := map["alice" := alice, "bob" := bob];
    var asked := AddFriendRequest(start, "bob", "alice");
    assert asked["alice"].friendsRequests == ["bob"];
    ProtocolFriends(asked, "alice", "bob");
    var done := Protocol(asked, "alice", "bob");
    assert done["alice"].friendsRequests == [];
    assert done["alice"].friends == ["bob"];
    assert done["bob"].friends == ["alice"];
  }
}
