/**
 The users telemt serves, the requests that bring one to the policy the panel owns, and the fingerprint file
 in which the agent remembers what each user was last given.
 */
module TelemtUsers {
  import opened Options

  type Name = string
  type Secret = string

  /** An expiration as telemt reports it: none, an instant, or a text that is not one. */
  datatype Expiry = Never | At(instant: int) | Garbled(text: string)

  /** The per-user state the panel owns; zero and absence mean that a limit is not set. */
  datatype Policy = Policy(
    dataQuota: nat, rateUp: nat, rateDown: nat, maxIps: nat, maxConns: nat, expiry: Expiry, enabled: bool, adTag: Option<string>)

  datatype User = User(secret: Secret, policy: Policy)

  datatype Field = DataQuota | RateUp | RateDown | MaxIps | MaxConns | Expiration | AdTag

  /** A sparse request: what is given is set, what is listed in `clear` is unset, the rest stays. */
  datatype Request = Request(
    secret: Option<Secret>, enabled: Option<bool>, dataQuota: Option<nat>, rateUp: Option<nat>, rateDown: Option<nat>,
    maxIps: Option<nat>, maxConns: Option<nat>, expiry: Option<int>, adTag: Option<string>, clear: set<Field>)

  function Positive(n: nat): Option<nat> {
    if n > 0 then Some(n) else None
  }

  function Instant(e: Expiry): Option<int> {
    if e.At? then Some(e.instant) else None
  }

  function CreateRequest(p: Policy, secret: Secret): Request {
    Request(Some(secret), Some(p.enabled), Positive(p.dataQuota), Positive(p.rateUp), Positive(p.rateDown),
            Positive(p.maxIps), Positive(p.maxConns), Instant(p.expiry), p.adTag, {})
  }

  function Cleared(absent: bool, f: Field): set<Field> {
    if absent then {f} else {}
  }

  function PatchRequest(p: Policy, secret: Option<Secret>): Request {
    CreateRequest(p, "").(
      secret := secret,
      clear := Cleared(p.dataQuota == 0, DataQuota) + Cleared(p.rateUp == 0, RateUp) + Cleared(p.rateDown == 0, RateDown)
             + Cleared(p.maxIps == 0, MaxIps) + Cleared(p.maxConns == 0, MaxConns)
             + Cleared(!p.expiry.At?, Expiration) + Cleared(p.adTag.None?, AdTag))
  }

  // ---- telemt's side -----------------------------------------------------------------------

  function Set<T>(given: Option<T>, cleared: bool, unset: T, cur: T): T {
    if cleared then unset else if given.Some? then given.value else cur
  }

  function Patched(u: User, r: Request): User {
    var p := u.policy;
    User(
      Set(r.secret, false, "", u.secret),
      Policy(Set(r.dataQuota, DataQuota in r.clear, 0, p.dataQuota), Set(r.rateUp, RateUp in r.clear, 0, p.rateUp),
             Set(r.rateDown, RateDown in r.clear, 0, p.rateDown), Set(r.maxIps, MaxIps in r.clear, 0, p.maxIps),
             Set(r.maxConns, MaxConns in r.clear, 0, p.maxConns),
             if Expiration in r.clear then Never else if r.expiry.Some? then At(r.expiry.value) else p.expiry,
             Set(r.enabled, false, false, p.enabled),
             if AdTag in r.clear then None else if r.adTag.Some? then r.adTag else p.adTag))
  }

  /** A new user starts from nothing set, and enabled unless told otherwise. */
  function Created(r: Request): User {
    Patched(User("", Policy(0, 0, 0, 0, 0, Never, true, None)), r)
  }

  /** telemt holds exactly this policy. */
  predicate Matches(p: Policy, u: User) {
    && u.policy.dataQuota == p.dataQuota && u.policy.rateUp == p.rateUp && u.policy.rateDown == p.rateDown
    && u.policy.maxIps == p.maxIps && u.policy.maxConns == p.maxConns && u.policy.enabled == p.enabled
    && u.policy.adTag == p.adTag && u.policy.expiry.Never? == p.expiry.Never?
    && (p.expiry.Never? || (u.policy.expiry.At? && p.expiry.At? && u.policy.expiry.instant == p.expiry.instant))
  }

  /** The panel sends no garbled expirations. */
  predicate Wellformed(p: Policy) {
    !p.expiry.Garbled?
  }

  lemma MatchesIff(p: Policy, u: User)
    requires Wellformed(p)
    ensures Matches(p, u) <==> u.policy == p
  {
  }

  /** A field is cleared exactly when the policy does not set it, and given exactly when it does. */
  lemma ClearsTheUnset(p: Policy, secret: Option<Secret>)
    ensures var clear := PatchRequest(p, secret).clear;
            && (DataQuota in clear <==> p.dataQuota == 0) && (RateUp in clear <==> p.rateUp == 0)
            && (RateDown in clear <==> p.rateDown == 0) && (MaxIps in clear <==> p.maxIps == 0)
            && (MaxConns in clear <==> p.maxConns == 0) && (Expiration in clear <==> !p.expiry.At?)
            && (AdTag in clear <==> p.adTag.None?)
    ensures var r := PatchRequest(p, secret);
            && r.dataQuota.Some? == (p.dataQuota > 0) && r.rateUp.Some? == (p.rateUp > 0) && r.rateDown.Some? == (p.rateDown > 0)
            && r.maxIps.Some? == (p.maxIps > 0) && r.maxConns.Some? == (p.maxConns > 0)
            && r.expiry.Some? == p.expiry.At? && r.adTag == p.adTag && r.enabled == Some(p.enabled) && r.secret == secret
  {
  }

  /** A patch brings any user to the policy, whatever it had before, and touches the secret only when asked to. */
  lemma PatchGivesPolicy(u: User, p: Policy, secret: Option<Secret>)
    requires Wellformed(p)
    ensures Patched(u, PatchRequest(p, secret)) == User(if secret.Some? then secret.value else u.secret, p)
    ensures Matches(p, Patched(u, PatchRequest(p, secret)))
  {
    ClearsTheUnset(p, secret);
  }

  lemma CreateGivesPolicy(p: Policy, secret: Secret)
    requires Wellformed(p)
    ensures Created(CreateRequest(p, secret)) == User(secret, p)
  {
  }

  // ---- the fingerprint file ----------------------------------------------------------------

  /** A fingerprint, injective as SHA-256 is taken to be. */
  datatype Print<T> = Print(of: T)

  datatype State = State(secrets: map<Name, Print<Secret>>, limits: map<Name, Print<Policy>>, quotas: map<Name, nat>)

  const NOTHING := State(map[], map[], map[])

  /** `quotaReset` is the start of the user's current quota period, 0 when it never resets. */
  datatype Desired = Desired(name: Name, secret: Secret, policy: Policy, limits: Limits, quotaReset: nat)
  datatype Limits = Limits(sessions: nat, streams: nat, perSession: nat)

  function Goal(d: Desired): User {
    User(d.secret, d.policy)
  }

  predicate SecretChanged(st: State, d: Desired) {
    !(d.name in st.secrets && st.secrets[d.name] == Print(d.secret))
  }

  predicate PolicyChanged(st: State, u: User, d: Desired) {
    if d.name in st.limits then st.limits[d.name] != Print(d.policy) else !Matches(d.policy, u)
  }

  /** What the agent sends for a user: nothing, a creation or a patch. */
  datatype Send = Nothing | Create(request: Request) | Patch(request: Request)

  function SendFor(st: State, users: map<Name, User>, d: Desired): Send {
    if d.name !in users then Create(CreateRequest(d.policy, d.secret))
    else if !SecretChanged(st, d) && !PolicyChanged(st, users[d.name], d) then Nothing
    else Patch(PatchRequest(d.policy, if SecretChanged(st, d) then Some(d.secret) else None))
  }

  function Sent(users: map<Name, User>, name: Name, s: Send): map<Name, User>
    requires s.Patch? ==> name in users
  {
    match s
    case Nothing => users
    case Create(r) => users[name := Created(r)]
    case Patch(r) => users[name := Patched(users[name], r)]
  }

  /** Where the file says that a user was given its goal, the user has it. */
  predicate Fits(st: State, users: map<Name, User>, d: Desired) {
    d.name in users && d.name in st.secrets && st.secrets[d.name] == Print(d.secret) ==>
      && users[d.name].secret == d.secret
      && (d.name in st.limits && st.limits[d.name] == Print(d.policy) ==> users[d.name].policy == d.policy)
  }

  /**
   Nothing is sent exactly for a user whose secret the file has, and its policy too or, where the file has none, telemt.
   */
  lemma NothingSentIff(st: State, users: map<Name, User>, d: Desired)
    requires Wellformed(d.policy)
    ensures SendFor(st, users, d) == Nothing <==>
              && d.name in users && d.name in st.secrets && st.secrets[d.name] == Print(d.secret)
              && if d.name in st.limits then st.limits[d.name] == Print(d.policy) else users[d.name].policy == d.policy
  {
    if d.name in users {
      MatchesIff(d.policy, users[d.name]);
    }
  }

  /** What is sent brings the user to its goal exactly when the file fits. */
  lemma SentReachesIff(st: State, users: map<Name, User>, d: Desired)
    requires Wellformed(d.policy)
    ensures var after := Sent(users, d.name, SendFor(st, users, d));
            d.name in after && (after[d.name] == Goal(d) <==> Fits(st, users, d))
  {
    if d.name !in users {
      CreateGivesPolicy(d.policy, d.secret);
    } else {
      MatchesIff(d.policy, users[d.name]);
      PatchGivesPolicy(users[d.name], d.policy, if SecretChanged(st, d) then Some(d.secret) else None);
    }
  }

  /** The file tells the truth about every user there is. */
  ghost predicate Truthful(st: State, users: map<Name, User>) {
    forall n :: n in users ==>
      && (n in st.secrets ==> st.secrets[n] == Print(users[n].secret))
      && (n in st.limits ==> st.limits[n] == Print(users[n].policy))
  }

  /** A truthful file fits every goal. */
  lemma TruthfulFits(st: State, users: map<Name, User>, d: Desired)
    requires Truthful(st, users)
    ensures Fits(st, users, d)
  {
  }

  /**
   Going back to the old goal after an apply that failed: the file still says the old goal, the user has
   the new one, nothing is sent, and the user stays.
   */
  lemma StaleAfterRevert(users: map<Name, User>, old': Desired, new': Desired)
    requires old'.name == new'.name && Goal(old') != Goal(new') && old'.name in users && users[old'.name] == Goal(old')
    requires Wellformed(old'.policy) && Wellformed(new'.policy)
    ensures var n := old'.name;
            var st := State(map[n := Print(old'.secret)], map[n := Print(old'.policy)], map[]);
            var half := Sent(users, n, SendFor(st, users, new'));
            && Fits(st, users, new') && half[n] == Goal(new')
            && SendFor(st, half, old') == Nothing && !Fits(st, half, old')
            && Sent(half, n, SendFor(st, half, old'))[n] != Goal(old')
  {
    var st := State(map[old'.name := Print(old'.secret)], map[old'.name := Print(old'.policy)], map[]);
    SentReachesIff(st, users, new');
    SentReachesIff(st, Sent(users, old'.name, SendFor(st, users, new')), old');
  }
}
