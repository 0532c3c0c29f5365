/** Refresh-token families (internal/auth/session_service.go, token_family.go). A token
    stands for its digest; identifiers are random and so never drawn twice. */
module Tokens {
  import opened Positions

  datatype Refresh = Refresh(user: int, family: int, expires: int, replacedBy: Option<int>, revoked: bool)

  datatype Access = Access(user: int, family: int, expires: int, revoked: bool)

  /** chains: the tokens of each family in the order of their rotation; used: every
      identifier drawn so far. Both only record what happened. */
  datatype Store = Store(refresh: map<int, Refresh>, access: map<int, Access>, chains: map<int, seq<int>>, used: set<int>)

  const EMPTY := Store(map[], map[], map[], {})

  /** A new refresh and access token with their expiries. */
  datatype Pair = Pair(refresh: int, access: int, refreshExpires: int, accessExpires: int)

  predicate Rotated(t: Refresh) {
    t.replacedBy.Some?
  }

  predicate Usable(s: Store, id: int, now: int) {
    id in s.refresh && !Rotated(s.refresh[id]) && !s.refresh[id].revoked && s.refresh[id].expires > now
  }

  predicate UsableAccess(s: Store, id: int, now: int) {
    id in s.access && !s.access[id].revoked && s.access[id].expires > now
  }

  // ------------------------------------------------------------- operations

  function Login(s: Store, user: int, family: int, p: Pair): Store {
    s.(refresh := s.refresh[p.refresh := Refresh(user, family, p.refreshExpires, None, false)],
       access := s.access[p.access := Access(user, family, p.accessExpires, false)],
       chains := s.chains[family := [p.refresh]],
       used := s.used + {p.refresh, p.access, family})
  }

  function RevokeFamily(s: Store, family: int): Store {
    s.(refresh := map t | t in s.refresh :: if s.refresh[t].family == family then s.refresh[t].(revoked := true) else s.refresh[t],
       access := map t | t in s.access :: if s.access[t].family == family then s.access[t].(revoked := true) else s.access[t])
  }

  function RevokeUser(s: Store, user: int): Store {
    s.(refresh := map t | t in s.refresh :: if s.refresh[t].user == user then s.refresh[t].(revoked := true) else s.refresh[t],
       access := map t | t in s.access :: if s.access[t].user == user then s.access[t].(revoked := true) else s.access[t])
  }

  function Rotate(s: Store, id: int, p: Pair): Store
    requires id in s.refresh
  {
    var t := s.refresh[id];
    s.(refresh := s.refresh[id := t.(replacedBy := Some(p.refresh))][p.refresh := Refresh(t.user, t.family, p.refreshExpires, None, false)],
       access := s.access[p.access := Access(t.user, t.family, p.accessExpires, false)],
       chains := if t.family in s.chains then s.chains[t.family := s.chains[t.family] + [p.refresh]] else s.chains,
       used := s.used + {p.refresh, p.access})
  }

  function RefreshToken(s: Store, id: int, p: Pair, now: int): Store {
    if id !in s.refresh then s
    else if Rotated(s.refresh[id]) then RevokeFamily(s, s.refresh[id].family)
    else if s.refresh[id].revoked || s.refresh[id].expires <= now then s
    else Rotate(s, id, p)
  }

  function Logout(s: Store, id: int, all: bool, now: int): Store {
    if id !in s.refresh then s
    else if all && Usable(s, id, now) then RevokeUser(s, s.refresh[id].user)
    else RevokeFamily(s, s.refresh[id].family)
  }

  /** HAVING max(expires_at) <= now. */
  predicate FamilyExpired(s: Store, family: int, now: int) {
    forall t :: t in s.refresh && s.refresh[t].family == family ==> s.refresh[t].expires <= now
  }

  predicate AccessDone(t: Access, now: int) {
    t.expires <= now || t.revoked
  }

  /** Deletes the candidates among a batch of access tokens and of families. */
  function Cleanup(s: Store, access: set<int>, families: set<int>, now: int): Store {
    s.(access := map t | t in s.access && !(t in access && AccessDone(s.access[t], now)) :: s.access[t],
       refresh := map t | t in s.refresh && !(s.refresh[t].family in families && FamilyExpired(s, s.refresh[t].family, now)) :: s.refresh[t],
       chains := map f | f in s.chains && !(f in families && FamilyExpired(s, f, now)) :: s.chains[f])
  }

  datatype Event =
    | Logins(user: int, family: int, p: Pair)
    | Refreshes(id: int, p: Pair, now: int)
    | Logouts(id: int, all: bool, now: int)
    | Resets(user: int)
    | Cleanups(access: set<int>, families: set<int>, now: int)

  function Step(s: Store, e: Event): Store {
    match e
    case Logins(user, family, p) => Login(s, user, family, p)
    case Refreshes(id, p, now) => RefreshToken(s, id, p, now)
    case Logouts(id, all, now) => Logout(s, id, all, now)
    case Resets(user) => RevokeUser(s, user)
    case Cleanups(access, families, now) => Cleanup(s, access, families, now)
  }

  predicate FreshPair(s: Store, p: Pair) {
    p.refresh !in s.used && p.access !in s.used && p.refresh != p.access
  }

  predicate Allowed(s: Store, e: Event) {
    match e
    case Logins(user, family, p) => FreshPair(s, p) && family !in s.used && family != p.refresh && family != p.access
    case Refreshes(id, p, now) => FreshPair(s, p)
    case _ => true
  }

  function Run(es: seq<Event>): Store {
    if es == [] then EMPTY else Step(Run(es[..|es| - 1]), es[|es| - 1])
  }

  predicate Legal(es: seq<Event>) {
    es == [] || (Legal(es[..|es| - 1]) && Allowed(Run(es[..|es| - 1]), es[|es| - 1]))
  }

  // -------------------------------------------------------------- invariant

  /** The i-th token of family f's chain. */
  ghost predicate LinkOk(s: Store, f: int, i: int)
    requires f in s.chains && 0 <= i < |s.chains[f]|
  {
    var l := s.chains[f];
    && l[i] in s.refresh && s.refresh[l[i]].family == f
    && s.refresh[l[i]].replacedBy == (if i == |l| - 1 then None else Some(l[i + 1]))
    && s.refresh[l[i]].user == (if l[0] in s.refresh then s.refresh[l[0]].user else 0)
  }

  /** Family f is one replacement chain. */
  ghost predicate ChainOk(s: Store, f: int)
    requires f in s.chains
  {
    && s.chains[f] != []
    && (forall i :: 0 <= i < |s.chains[f]| ==> LinkOk(s, f, i))
    && (forall i, j :: 0 <= i < j < |s.chains[f]| ==> s.chains[f][i] != s.chains[f][j])
  }

  ghost predicate Member(s: Store, t: int)
    requires t in s.refresh
  {
    s.refresh[t].family in s.chains && t in s.chains[s.refresh[t].family]
  }

  ghost predicate Chains(s: Store) {
    && (forall f :: f in s.chains ==> ChainOk(s, f))
    && (forall t :: t in s.refresh ==> Member(s, t))
  }

  ghost predicate Drawn(s: Store) {
    && (forall t :: t in s.refresh ==> t in s.used && s.refresh[t].family in s.used)
    && (forall t :: t in s.access ==> t in s.used && s.access[t].family in s.used)
    && (forall f :: f in s.chains ==> f in s.used)
  }

  ghost predicate Inv(s: Store) {
    Chains(s) && Drawn(s)
  }

  /** Only revocation flags differ. */
  ghost predicate SameButRevoked(s: Store, s': Store) {
    && s'.chains == s.chains && s'.used == s.used
    && s'.refresh.Keys == s.refresh.Keys && s'.access.Keys == s.access.Keys
    && (forall t :: t in s.refresh ==> s'.refresh[t] == s.refresh[t].(revoked := s'.refresh[t].revoked) && (s.refresh[t].revoked ==> s'.refresh[t].revoked))
    && (forall t :: t in s.access ==> s'.access[t] == s.access[t].(revoked := s'.access[t].revoked) && (s.access[t].revoked ==> s'.access[t].revoked))
  }

  lemma {:induction false} RevokedInv(s: Store, s': Store)
    requires Inv(s) && SameButRevoked(s, s')
    ensures Inv(s')
  {
    forall f | f in s'.chains ensures ChainOk(s', f) {
      assert ChainOk(s, f);
      forall i | 0 <= i < |s'.chains[f]| ensures LinkOk(s', f, i) { RevokedLink(s, s', f, i); }
    }
    forall t | t in s'.refresh ensures Member(s', t) { assert Member(s, t); }
  }

  lemma {:induction false} RevokedLink(s: Store, s': Store, f: int, i: int)
    requires SameButRevoked(s, s') && f in s.chains && ChainOk(s, f) && 0 <= i < |s.chains[f]|
    ensures LinkOk(s', f, i)
  {
    assert LinkOk(s, f, i) && LinkOk(s, f, 0);
    var a, b := s.chains[f][i], s.chains[f][0];
    assert s'.refresh[a] == s.refresh[a].(revoked := s'.refresh[a].revoked);
    assert s'.refresh[b] == s.refresh[b].(revoked := s'.refresh[b].revoked);
  }

  lemma {:induction false} LoginChains(s: Store, user: int, family: int, p: Pair)
    requires Inv(s) && Allowed(s, Logins(user, family, p))
    ensures Chains(Login(s, user, family, p))
  {
    var s' := Login(s, user, family, p);
    forall f | f in s'.chains ensures ChainOk(s', f) {
      if f == family {
        assert LinkOk(s', f, 0);
      } else {
        assert ChainOk(s, f);
        forall i | 0 <= i < |s'.chains[f]| ensures LinkOk(s', f, i) { assert LinkOk(s, f, i) && LinkOk(s, f, 0); }
      }
    }
    forall t | t in s'.refresh ensures Member(s', t) {
      if t != p.refresh { assert Member(s, t); }
    }
  }

  /** The unrotated token of a family is the last of its chain. */
  lemma {:induction false} UnrotatedIsLast(s: Store, id: int)
    requires Chains(s) && id in s.refresh
    ensures var f := s.refresh[id].family;
            f in s.chains && s.chains[f] != [] && (!Rotated(s.refresh[id]) <==> id == s.chains[f][|s.chains[f]| - 1])
  {
    var f := s.refresh[id].family;
    assert Member(s, id) && ChainOk(s, f);
    var i :| 0 <= i < |s.chains[f]| && s.chains[f][i] == id;
    assert LinkOk(s, f, i);
  }

  lemma {:induction false} RotateChain(s: Store, id: int, p: Pair, f: int)
    requires Inv(s) && id in s.refresh && !Rotated(s.refresh[id]) && FreshPair(s, p) && f in s.chains
    ensures ChainOk(Rotate(s, id, p), f)
  {
    var s' := Rotate(s, id, p);
    var l, n := s.chains[f], |s.chains[f]| - 1;
    UnrotatedIsLast(s, id);
    assert ChainOk(s, f);
    forall i | 0 <= i <= n ensures l[i] in s.refresh && l[i] != p.refresh && (l[i] == id ==> i == n && f == s.refresh[id].family) {
      assert LinkOk(s, f, i);
    }
    forall i | 0 <= i < |s'.chains[f]| ensures LinkOk(s', f, i) {
      assert LinkOk(s, f, 0) && LinkOk(s, f, n);
      if i <= n { assert LinkOk(s, f, i); }
    }
  }

  lemma {:induction false} RotateInv(s: Store, id: int, p: Pair)
    requires Inv(s) && id in s.refresh && !Rotated(s.refresh[id]) && FreshPair(s, p)
    ensures Inv(Rotate(s, id, p))
  {
    var s' := Rotate(s, id, p);
    forall f | f in s'.chains ensures ChainOk(s', f) { RotateChain(s, id, p, f); }
    assert Member(s, id);
    forall t | t in s'.refresh ensures Member(s', t) {
      if t != p.refresh { assert Member(s, t); }
    }
  }

  lemma {:induction false} CleanupInv(s: Store, access: set<int>, families: set<int>, now: int)
    requires Inv(s)
    ensures Inv(Cleanup(s, access, families, now))
  {
    var s' := Cleanup(s, access, families, now);
    forall f | f in s'.chains ensures ChainOk(s', f) {
      assert ChainOk(s, f);
      forall i | 0 <= i < |s'.chains[f]| ensures LinkOk(s', f, i) { assert LinkOk(s, f, i) && LinkOk(s, f, 0); }
    }
    forall t | t in s'.refresh ensures Member(s', t) { assert Member(s, t); }
  }

  lemma {:induction false} StepInv(s: Store, e: Event)
    requires Inv(s) && Allowed(s, e)
    ensures Inv(Step(s, e))
  {
    match e
    case Logins(user, family, p) => LoginChains(s, user, family, p);
    case Refreshes(id, p, now) =>
      if id in s.refresh {
        if Rotated(s.refresh[id]) {
          RevokedInv(s, RevokeFamily(s, s.refresh[id].family));
        } else if Step(s, e) != s {
          RotateInv(s, id, p);
        }
      }
    case Logouts(id, all, now) => RevokedInv(s, Logout(s, id, all, now));
    case Resets(user) => RevokedInv(s, RevokeUser(s, user));
    case Cleanups(access, families, now) => CleanupInv(s, access, families, now);
  }

  lemma {:induction false} EveryRunInv(es: seq<Event>)
    requires Legal(es)
    ensures Inv(Run(es))
  {
    if es != [] {
      EveryRunInv(es[..|es| - 1]);
      StepInv(Run(es[..|es| - 1]), es[|es| - 1]);
    }
  }

  // ----------------------------------------------------------- main theorems

  /** l lists the tokens of the family, each replaced by the next and the last by none. */
  ghost predicate ReplacementChain(s: Store, family: int, l: seq<int>) {
    && l != [] && (forall t :: t in s.refresh && s.refresh[t].family == family <==> t in l)
    && (forall i :: 0 <= i < |l| ==> l[i] in s.refresh && s.refresh[l[i]].replacedBy == Following(l, i))
  }

  function Following(l: seq<int>, i: int): Option<int> {
    if 0 <= i < |l| - 1 then Some(l[i + 1]) else None
  }

  lemma {:induction false} ChainIsReplacement(s: Store, family: int)
    requires Chains(s) && family in s.chains
    ensures ReplacementChain(s, family, s.chains[family])
  {
    var l := s.chains[family];
    assert ChainOk(s, family);
    forall t ensures t in s.refresh && s.refresh[t].family == family <==> t in l { MemberIff(s, family, t); }
    forall i | 0 <= i < |l| ensures l[i] in s.refresh && s.refresh[l[i]].replacedBy == Following(l, i) {
      assert LinkOk(s, family, i);
    }
  }

  /** In every run each family is one replacement chain: its tokens are the chain's, each
      replaced by the next, and exactly the last is unrotated. So at most one is usable. */
  lemma {:induction false} FamilyIsOneChain(es: seq<Event>, family: int)
    requires Legal(es)
    ensures var s := Run(es);
            if family in s.chains then ReplacementChain(s, family, s.chains[family])
            else forall t :: t in s.refresh ==> s.refresh[t].family != family
    ensures var s := Run(es);
            forall t, u, now, later :: Usable(s, t, now) && Usable(s, u, later) && s.refresh[t].family == s.refresh[u].family == family ==> t == u
  {
    EveryRunInv(es);
    var s := Run(es);
    if family in s.chains {
      ChainIsReplacement(s, family);
    } else {
      forall t | t in s.refresh ensures s.refresh[t].family != family { assert Member(s, t); }
    }
    forall t, u, now, later | Usable(s, t, now) && Usable(s, u, later) && s.refresh[t].family == s.refresh[u].family == family ensures t == u {
      UnrotatedIsLast(s, t);
      UnrotatedIsLast(s, u);
    }
  }

  lemma {:induction false} MemberIff(s: Store, f: int, t: int)
    requires Chains(s) && f in s.chains
    ensures t in s.refresh && s.refresh[t].family == f <==> t in s.chains[f]
  {
    assert ChainOk(s, f);
    if t in s.refresh { assert Member(s, t); }
    if t in s.chains[f] {
      var i :| 0 <= i < |s.chains[f]| && s.chains[f][i] == t;
      assert LinkOk(s, f, i);
    }
  }

  /** No token of the family can be used, whatever the time. */
  ghost predicate FamilyDead(s: Store, family: int) {
    && family in s.used
    && (forall t :: t in s.refresh && s.refresh[t].family == family ==> s.refresh[t].revoked)
    && (forall t :: t in s.access && s.access[t].family == family ==> s.access[t].revoked)
  }

  lemma {:induction false} StaysDead(s: Store, e: Event, family: int)
    requires Inv(s) && Allowed(s, e) && FamilyDead(s, family)
    ensures FamilyDead(Step(s, e), family)
  {
  }

  lemma {:induction false} DeadForever(es: seq<Event>, more: seq<Event>, family: int)
    requires Legal(es + more) && FamilyDead(Run(es), family)
    ensures FamilyDead(Run(es + more), family)
    decreases |more|
  {
    if more == [] {
      assert es + more == es;
    } else {
      var n := |more| - 1;
      assert (es + more)[..|es + more| - 1] == es + more[..n];
      DeadForever(es, more[..n], family);
      EveryRunInv(es + more[..n]);
      StaysDead(Run(es + more[..n]), more[n], family);
    }
  }

  /** Replaying a rotated token ends its family: no refresh or access token of it is usable
      in any later state, at any time. */
  lemma {:induction false} ReplayEndsFamily(es: seq<Event>, id: int, p: Pair, now: int, more: seq<Event>, t: int, later: int)
    requires id in Run(es).refresh && Rotated(Run(es).refresh[id])
    requires Legal(es + [Refreshes(id, p, now)] + more)
    ensures var family, s := Run(es).refresh[id].family, Run(es + [Refreshes(id, p, now)] + more);
            && (t in s.refresh && s.refresh[t].family == family ==> !Usable(s, t, later))
            && (t in s.access && s.access[t].family == family ==> !UsableAccess(s, t, later))
  {
    var e := Refreshes(id, p, now);
    var family := Run(es).refresh[id].family;
    LegalPrefix(es + [e], more);
    LegalPrefix(es, [e]);
    EveryRunInv(es);
    assert (es + [e])[..|es|] == es;
    assert FamilyDead(Run(es + [e]), family);
    DeadForever(es + [e], more, family);
  }

  /** Everything of the user that belongs to one of these families is revoked. */
  ghost predicate UserDead(s: Store, user: int, families: set<int>) {
    && families <= s.used
    && (forall t :: t in s.refresh && s.refresh[t].user == user && s.refresh[t].family in families ==> s.refresh[t].revoked)
    && (forall t :: t in s.access && s.access[t].user == user && s.access[t].family in families ==> s.access[t].revoked)
  }

  lemma {:induction false} UserStaysDead(s: Store, e: Event, user: int, families: set<int>)
    requires Allowed(s, e) && UserDead(s, user, families)
    ensures UserDead(Step(s, e), user, families)
  {
  }

  lemma {:induction false} UserDeadForever(es: seq<Event>, more: seq<Event>, user: int, families: set<int>)
    requires Legal(es + more) && UserDead(Run(es), user, families)
    ensures UserDead(Run(es + more), user, families)
    decreases |more|
  {
    if more == [] {
      assert es + more == es;
    } else {
      var n := |more| - 1;
      assert (es + more)[..|es + more| - 1] == es + more[..n];
      UserDeadForever(es, more[..n], user, families);
      UserStaysDead(Run(es + more[..n]), more[n], user, families);
    }
  }

  /** e ends all sessions of the user in s: a password reset, or a logout everywhere with a
      usable token of theirs. */
  predicate EndsSessions(s: Store, e: Event, user: int) {
    || e == Resets(user)
    || (e.Logouts? && e.all && Usable(s, e.id, e.now) && s.refresh[e.id].user == user)
  }

  /** From then on whatever of the user's is usable, at any time, belongs to a later login. */
  lemma {:induction false} AllSessionsEnd(es: seq<Event>, e: Event, user: int, more: seq<Event>, t: int, later: int)
    requires EndsSessions(Run(es), e, user) && Legal(es + [e] + more)
    ensures var s := Run(es + [e] + more);
            && (Usable(s, t, later) && s.refresh[t].user == user ==> s.refresh[t].family !in Run(es).used)
            && (UsableAccess(s, t, later) && s.access[t].user == user ==> s.access[t].family !in Run(es).used)
  {
    assert (es + [e])[..|es|] == es;
    assert Run(es + [e]) == RevokeUser(Run(es), user);
    UserDeadForever(es + [e], more, user, Run(es).used);
  }

  /** A login issues two tokens of the user and the new family, each usable until its expiry,
      and leaves every other token as it was. */
  lemma {:induction false} LoginExact(s: Store, user: int, family: int, p: Pair, t: int, at: int)
    requires Inv(s) && Allowed(s, Logins(user, family, p))
    ensures var s' := Step(s, Logins(user, family, p));
            && (Usable(s', t, at) <==> if t == p.refresh then at < p.refreshExpires else Usable(s, t, at))
            && (UsableAccess(s', t, at) <==> if t == p.access then at < p.accessExpires else UsableAccess(s, t, at))
            && s'.refresh[p.refresh].user == s'.access[p.access].user == user
            && s'.refresh[p.refresh].family == s'.access[p.access].family == family
  {
  }

  /** Refreshing with a usable token issues two tokens of its user and family, each usable
      until its expiry, spends the presented one and leaves every other as it was; with a
      rotated token it only ends the family; with any other it changes nothing. */
  lemma {:induction false} RefreshExact(s: Store, id: int, p: Pair, now: int, t: int, at: int)
    requires Inv(s) && FreshPair(s, p)
    ensures var s' := Step(s, Refreshes(id, p, now));
            Usable(s, id, now) ==>
              && (Usable(s', t, at) <==> if t == p.refresh then at < p.refreshExpires else t != id && Usable(s, t, at))
              && (UsableAccess(s', t, at) <==> if t == p.access then at < p.accessExpires else UsableAccess(s, t, at))
              && s'.refresh[p.refresh].user == s'.access[p.access].user == s.refresh[id].user
              && s'.refresh[p.refresh].family == s'.access[p.access].family == s.refresh[id].family
    ensures var s' := Step(s, Refreshes(id, p, now));
            id in s.refresh && s.refresh[id].replacedBy.Some? ==>
              && (Usable(s', t, at) <==> Usable(s, t, at) && s.refresh[t].family != s.refresh[id].family)
              && (UsableAccess(s', t, at) <==> UsableAccess(s, t, at) && s.access[t].family != s.refresh[id].family)
    ensures !Usable(s, id, now) && !(id in s.refresh && s.refresh[id].replacedBy.Some?) ==> Step(s, Refreshes(id, p, now)) == s
  {
  }

  /** A cleanup deletes exactly the batch's access tokens that have expired or are revoked, and
      the tokens of the batch's families all of whose tokens have expired. */
  lemma {:induction false} CleanupExact(s: Store, access: set<int>, families: set<int>, now: int, t: int)
    ensures var s' := Step(s, Cleanups(access, families, now));
            && (t in s'.access <==> t in s.access && !(t in access && (s.access[t].expires <= now || s.access[t].revoked)))
            && (t in s'.access ==> s'.access[t] == s.access[t])
            && (t in s'.refresh <==>
                  t in s.refresh && !(s.refresh[t].family in families &&
                                      forall u :: u in s.refresh && s.refresh[u].family == s.refresh[t].family ==> s.refresh[u].expires <= now))
            && (t in s'.refresh ==> s'.refresh[t] == s.refresh[t])
  {
  }

  /** A family has one user. */
  ghost predicate Owned(s: Store) {
    && (forall t, u :: t in s.refresh && u in s.refresh && s.refresh[t].family == s.refresh[u].family ==> s.refresh[t].user == s.refresh[u].user)
    && (forall a, t :: a in s.access && t in s.refresh && s.access[a].family == s.refresh[t].family ==> s.access[a].user == s.refresh[t].user)
  }

  lemma {:induction false} RotateOwned(s: Store, id: int, p: Pair)
    requires Owned(s) && id in s.refresh
    ensures Owned(Rotate(s, id, p))
  {
  }

  lemma {:induction false} StepOwned(s: Store, e: Event)
    requires Owned(s) && Drawn(s) && Allowed(s, e)
    ensures Owned(Step(s, e))
  {
    if e.Refreshes? && e.id in s.refresh { RotateOwned(s, e.id, e.p); }
  }

  lemma {:induction false} EveryRunOwned(es: seq<Event>)
    requires Legal(es)
    ensures Owned(Run(es))
  {
    if es != [] {
      EveryRunOwned(es[..|es| - 1]);
      EveryRunInv(es[..|es| - 1]);
      StepOwned(Run(es[..|es| - 1]), es[|es| - 1]);
    }
  }

  /** A logout ends the token's family, even when the token itself is no longer usable: no
      refresh or access token of it is usable in any later state, at any time. */
  lemma {:induction false} LogoutEndsFamily(es: seq<Event>, id: int, all: bool, now: int, more: seq<Event>, t: int, later: int)
    requires id in Run(es).refresh && Legal(es + [Logouts(id, all, now)] + more)
    ensures var family, s := Run(es).refresh[id].family, Run(es + [Logouts(id, all, now)] + more);
            && (Usable(s, t, later) ==> s.refresh[t].family != family)
            && (UsableAccess(s, t, later) ==> s.access[t].family != family)
  {
    var e := Logouts(id, all, now);
    LegalPrefix(es + [e], more);
    LegalPrefix(es, [e]);
    EveryRunInv(es);
    EveryRunOwned(es);
    assert (es + [e])[..|es|] == es;
    var family := Run(es).refresh[id].family;
    assert FamilyDead(Run(es + [e]), family);
    DeadForever(es + [e], more, family);
  }

  /** Neither touches anyone else's tokens, and a logout that is not everywhere no other family's. */
  lemma {:induction false} OthersKeepSessions(s: Store, e: Event, t: int, later: int)
    requires e.Resets? || e.Logouts?
    ensures var s' := Step(s, e);
            Usable(s', t, later) <==>
              && Usable(s, t, later)
              && (e.Resets? ==> s.refresh[t].user != e.user)
              && (e.Logouts? && e.id in s.refresh ==>
                    if e.all && Usable(s, e.id, e.now) then s.refresh[t].user != s.refresh[e.id].user
                    else s.refresh[t].family != s.refresh[e.id].family)
    ensures var s' := Step(s, e);
            UsableAccess(s', t, later) <==>
              && UsableAccess(s, t, later)
              && (e.Resets? ==> s.access[t].user != e.user)
              && (e.Logouts? && e.id in s.refresh ==>
                    if e.all && Usable(s, e.id, e.now) then s.access[t].user != s.refresh[e.id].user
                    else s.access[t].family != s.refresh[e.id].family)
  {
  }

  lemma {:induction false} LegalPrefix(es: seq<Event>, more: seq<Event>)
    requires Legal(es + more)
    ensures Legal(es)
    decreases |more|
  {
    if more == [] {
      assert es + more == es;
    } else {
      assert (es + more)[..|es + more| - 1] == es + more[..|more| - 1];
      LegalPrefix(es, more[..|more| - 1]);
    }
  }

  /** Cleanup removes a family whole or not at all, only when all its tokens have expired,
      so no row that could still be used or replayed before its expiry is lost. */
  lemma {:induction false} CleanupRemovesWholeFamilies(s: Store, access: set<int>, families: set<int>, now: int, f: int)
    ensures var s' := Cleanup(s, access, families, now);
            || (forall t :: t in s.refresh && s.refresh[t].family == f ==> t in s'.refresh && s'.refresh[t] == s.refresh[t])
            || (forall t :: t in s.refresh && s.refresh[t].family == f ==> t !in s'.refresh && s.refresh[t].expires <= now)
    ensures var s' := Cleanup(s, access, families, now);
            && (forall t :: t in s.refresh && s.refresh[t].expires > now ==> t in s'.refresh)
            && (forall t, later :: later >= now ==> (UsableAccess(s, t, later) <==> UsableAccess(s', t, later)))
            && (forall t, later :: later >= now ==> (Usable(s, t, later) <==> Usable(s', t, later)))
  {
    var s' := Cleanup(s, access, families, now);
    if f in families && FamilyExpired(s, f, now) {
      assert forall t :: t in s.refresh && s.refresh[t].family == f ==> t !in s'.refresh;
    }
  }

  // -------------------------------------------------------------- the service

  class SessionService {
    var refresh: map<int, Refresh>
    var access: map<int, Access>
    ghost var chains: map<int, seq<int>>
    ghost var used: set<int>

    ghost function Now(): Store
      reads this
    {
      Store(refresh, access, chains, used)
    }

    method RevokeTokenFamily(family: int)
      modifies this`refresh, this`access
      ensures Now() == RevokeFamily(old(Now()), family)
    {
      refresh := map t | t in refresh :: if refresh[t].family == family then refresh[t].(revoked := true) else refresh[t];
      access := map t | t in access :: if access[t].family == family then access[t].(revoked := true) else access[t];
    }

    /** Refresh; ok exactly when the token was usable, and then p is issued. */
    method RotateToken(id: int, p: Pair, now: int) returns (ok: bool)
      requires FreshPair(Now(), p) && Inv(Now())
      modifies this
      ensures Now() == Step(old(Now()), Refreshes(id, p, now))
      ensures ok == Usable(old(Now()), id, now)
      ensures ok ==> Usable(Now(), p.refresh, now) || p.refreshExpires <= now
      ensures !Usable(Now(), id, now)
    {
      if id !in refresh { return false; }
      var t := refresh[id];
      if t.replacedBy.Some? {
        RevokeTokenFamily(t.family);
        return false;
      }
      if t.revoked || t.expires <= now { return false; }
      refresh := refresh[id := t.(replacedBy := Some(p.refresh))][p.refresh := Refresh(t.user, t.family, p.refreshExpires, None, false)];
      access := access[p.access := Access(t.user, t.family, p.accessExpires, false)];
      if t.family in chains { chains := chains[t.family := chains[t.family] + [p.refresh]]; }
      used := used + {p.refresh, p.access};
      ok := true;
    }

    method LogoutToken(id: int, all: bool, now: int)
      modifies this
      ensures Now() == Step(old(Now()), Logouts(id, all, now))
      ensures !Usable(Now(), id, now)
    {
      if id !in refresh { return; }
      var t := refresh[id];
      if all && t.replacedBy.None? && !t.revoked && t.expires > now {
        refresh := map k | k in refresh :: if refresh[k].user == t.user then refresh[k].(revoked := true) else refresh[k];
        access := map k | k in access :: if access[k].user == t.user then access[k].(revoked := true) else access[k];
      } else {
        RevokeTokenFamily(t.family);
      }
    }

    method CleanupSessions(accessBatch: set<int>, familyBatch: set<int>, now: int)
      modifies this
      ensures Now() == Step(old(Now()), Cleanups(accessBatch, familyBatch, now))
    {
      ghost var s := Now();
      access := map t | t in access && !(t in accessBatch && AccessDone(access[t], now)) :: access[t];
      var expired := set f | f in familyBatch && (forall t :: t in refresh && refresh[t].family == f ==> refresh[t].expires <= now);
      assert forall f :: f in expired <==> f in familyBatch && FamilyExpired(s, f, now);
      refresh := map t | t in refresh && refresh[t].family !in expired :: refresh[t];
      chains := map f | f in chains && f !in expired :: chains[f];
    }
  }
}
