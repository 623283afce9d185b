/**
 * Pausing a journey to a token plus a server-side state, and coming back from
 * them. `None` stands for a nil field, so that the lazy getters and the
 * field-by-field merge keep the distinctions the program makes.
 */
module Session {
  import opened Basics
  import opened Tracking

  type Data = map<string, string>

  /** A journey state. `raw` and `sealed` are the serialised forms; `ctx` and `enc` the trees made from them on demand. */
  datatype State = State(
    jti: string,
    realm: string,
    trackings: Option<seq<string>>,
    raw: Option<Data>,
    ctx: Option<Data>,
    sealed: string,
    enc: Option<Data>,
    closed: Option<Data>,
    temp: Option<Data>)

  /** What a resumed run can observe of a state. */
  datatype View = View(trackings: seq<string>, ctx: Data, closed: Data, enc: Data, realm: string)

  /** The claims a token carries. */
  datatype Claims = Claims(jti: string, realm: string, trackings: seq<string>, raw: Option<Data>, sealed: string)

  /** Context encryption and token signing, as opaque inverse functions. */
  datatype Keys = Keys(
    seal: Data -> string,
    open: string -> Option<Data>,
    sign: Claims -> string,
    validate: string -> Option<Claims>)

  ghost predicate Inverse(k: Keys) {
    && (forall d :: k.seal(d) != "" && k.open(k.seal(d)) == Some(d))
    && (forall c :: k.validate(k.sign(c)) == Some(c))
  }

  function OrEmpty(d: Option<Data>): Data {
    if d.Some? then d.value else map[]
  }

  function CtxOf(s: State): Data {
    if s.ctx.Some? then s.ctx.value else OrEmpty(s.raw)
  }

  /** GetEncryptedCtx: the tree if there is one, else the decrypted text, else nothing. */
  function EncOf(k: Keys, s: State): Data {
    if s.enc.Some? then s.enc.value
    else if s.sealed != "" then OrEmpty(k.open(s.sealed))
    else map[]
  }

  function Observe(k: Keys, s: State): View {
    View(if s.trackings.Some? then s.trackings.value else [], CtxOf(s), OrEmpty(s.closed), EncOf(k, s), s.realm)
  }

  /** serializeJourneyContext: an empty encrypted context leaves the earlier text in place. */
  function Serialize(k: Keys, s: State): State {
    var enc := EncOf(k, s);
    s.(raw := Some(CtxOf(s)), ctx := Some(CtxOf(s)), enc := Some(enc), sealed := if enc == map[] then s.sealed else k.seal(enc))
  }

  function Clear(s: State): State {
    s.(ctx := None, enc := None, temp := None)
  }

  /** signJourneyToken: an empty context is left out of the claims. */
  function ClaimsOf(s: State): Claims {
    Claims(s.jti, s.realm, if s.trackings.Some? then s.trackings.value else [],
           if s.raw.Some? && s.raw.value != map[] then s.raw else None, s.sealed)
  }

  /** The state a validated token stands for. */
  function FromClaims(c: Claims): State {
    State(c.jti, c.realm, Some(c.trackings), c.raw, None, c.sealed, None, None, None)
  }

  function Merge(js: State, prev: State): State {
    js.(trackings := if js.trackings.None? then prev.trackings else js.trackings,
        enc := if js.enc.None? then prev.enc else js.enc,
        closed := if js.closed.None? then prev.closed else js.closed,
        temp := if js.temp.None? then prev.temp else js.temp,
        realm := if js.realm == "" then prev.realm else js.realm)
  }

  /** The frame on top names a journey. */
  predicate Resumable(trackings: seq<string>) {
    trackings != [] && var t := trackings[|trackings| - 1]; 0 < IndexOf(t, ':') < |t|
  }

  /** GetJourneyState for a token whose stored state is `prev`. */
  function ResumeToken(k: Keys, token: string, prev: State): Result<State> {
    match k.validate(token)
    case None => Err
    case Some(c) =>
      if !Resumable(c.trackings) then Err
      else
        var merged := Merge(FromClaims(c), prev).(temp := Some(map[]));
        if merged.sealed == "" then Ok(merged)
        else if merged.enc.None? && k.open(merged.sealed).None? then Err
        else Ok(merged.(enc := Some(EncOf(k, merged))))
  }

  /** pauseJourney: the pending extension of the expiry is consumed, then contexts are serialised. */
  function Paused(k: Keys, s: State, extendKey: string): State {
    Serialize(k, s.(ctx := Some(CtxOf(s) - {extendKey})))
  }

  /** The encrypted context survives the pause under this condition on the state before it. */
  predicate EncSurvives(k: Keys, s: State) {
    EncOf(k, s) != map[] || s.sealed == "" || k.open(s.sealed) == Some(map[])
  }

  /**
   * Pause followed by token resume is transparent exactly when the encrypted context
   * survives: the same tracking stack, contexts and realm come back. The expiry
   * extension is the only key that is consumed.
   */
  lemma PauseThenResume(k: Keys, s: State, extendKey: string)
    requires Inverse(k)
    requires s.trackings.Some? && Resumable(s.trackings.value)
    ensures var p := Paused(k, s, extendKey);
            var r := ResumeToken(k, k.sign(ClaimsOf(p)), Clear(p));
            var expected := Observe(k, s).(ctx := CtxOf(s) - {extendKey});
            && (r.Ok? && Observe(k, r.value) == expected <==> EncSurvives(k, s))
            && (r.Ok? ==> Observe(k, r.value).(enc := expected.enc) == expected && r.value.jti == s.jti)
  {
    var p := Paused(k, s, extendKey);
    var c := ClaimsOf(p);
    assert k.validate(k.sign(c)) == Some(c);
    var merged := Merge(FromClaims(c), Clear(p)).(temp := Some(map[]));
    assert CtxOf(merged) == CtxOf(s) - {extendKey};
    assert EncOf(k, s) != map[] ==> k.open(merged.sealed) == Some(EncOf(k, s));
  }

  /** A step that empties the encrypted context sees the old content again after the pause. */
  lemma EmptiedEncryptedContextComesBack(k: Keys, s: State, secret: Data, extendKey: string)
    requires Inverse(k) && secret != map[]
    requires s.trackings.Some? && Resumable(s.trackings.value)
    requires s.sealed == k.seal(secret) && s.enc == Some(map[])
    ensures var p := Paused(k, s, extendKey);
            var r := ResumeToken(k, k.sign(ClaimsOf(p)), Clear(p));
            EncOf(k, s) == map[] && r.Ok? && EncOf(k, r.value) == secret
  {
    var p := Paused(k, s, extendKey);
    assert k.validate(k.sign(ClaimsOf(p))) == Some(ClaimsOf(p));
  }

  /** A stored state names the journey that suspended it and still has a frame to continue with. */
  predicate Suspended(s: State, journeyKey: string) {
    && journeyKey in OrEmpty(s.closed) && OrEmpty(s.closed)[journeyKey] != ""
    && s.trackings.Some? && s.trackings.value != []
  }

  /** GetJourneyState for a resume id whose stored state is `prev`. */
  function ResumeSuspended(k: Keys, prev: State, journeyKey: string): Result<State> {
    if !Suspended(prev, journeyKey) then Err
    else
      var s := prev.(temp := Some(map[]));
      if s.sealed == "" then Ok(s)
      else if s.enc.None? && k.open(s.sealed).None? then Err
      else Ok(s.(enc := Some(EncOf(k, s))))
  }

  /**
   * Suspension by resume id, then resume, is transparent exactly when the state can be
   * found again and its encrypted context survives; otherwise only the encrypted
   * context differs, or an older ciphertext that cannot be read refuses the resume.
   */
  lemma SuspendThenResume(k: Keys, s: State, extendKey: string, resumeId: string, journeyKey: string)
    requires Inverse(k)
    ensures var p := Clear(Paused(k, s, extendKey).(jti := resumeId));
            var r := ResumeSuspended(k, p, journeyKey);
            var expected := Observe(k, s).(ctx := CtxOf(s) - {extendKey});
            && (r.Ok? && Observe(k, r.value) == expected <==> Suspended(s, journeyKey) && EncSurvives(k, s))
            && (r.Ok? ==> Observe(k, r.value).(enc := expected.enc) == expected && r.value.jti == resumeId)
            && (r.Err? <==> !Suspended(s, journeyKey) || (EncOf(k, s) == map[] && s.sealed != "" && k.open(s.sealed).None?))
  {
    var p := Paused(k, s, extendKey);
    assert EncOf(k, s) != map[] ==> k.open(p.sealed) == Some(EncOf(k, s));
  }

  // ----- Either way back -----

  /** A stored state is found again by its token, or by a resume id. */
  datatype Route = Token | Identifier(resumeId: string, journeyKey: string)

  /** What is resumed by this route has a frame to continue with. */
  predicate Accepts(s: State, route: Route) {
    match route
    case Token => s.trackings.Some? && Resumable(s.trackings.value)
    case Identifier(_, journeyKey) => Suspended(s, journeyKey)
  }

  /** From a state that is paused to the state its next run starts with. */
  function Back(k: Keys, s: State, extendKey: string, route: Route): Result<State> {
    var p := Paused(k, s, extendKey);
    match route
    case Token => ResumeToken(k, k.sign(ClaimsOf(p)), Clear(p))
    case Identifier(resumeId, journeyKey) => ResumeSuspended(k, Clear(p.(jti := resumeId)), journeyKey)
  }

  /** What the next run should observe: everything but the extension of the expiry. */
  function Remembered(k: Keys, s: State, extendKey: string): View {
    Observe(k, s).(ctx := CtxOf(s) - {extendKey})
  }

  /** By either route the same comes back; if anything differs, the encrypted context is the one of the older ciphertext. */
  lemma PauseThenBack(k: Keys, s: State, extendKey: string, route: Route)
    requires Inverse(k)
    ensures var r := Back(k, s, extendKey, route);
            var expected := Remembered(k, s, extendKey);
            && (r.Ok? && Observe(k, r.value) == expected <==> Accepts(s, route) && EncSurvives(k, s))
            && (r.Ok? ==> r.value.trackings == s.trackings && Observe(k, r.value).(enc := expected.enc) == expected)
            && (r.Ok? && !EncSurvives(k, s) ==> Some(EncOf(k, r.value)) == k.open(s.sealed) && r.value.sealed == s.sealed)
            && (r.Ok? && EncOf(k, s) != map[] ==> r.value.sealed == k.seal(EncOf(k, s)))
            && (r.Err? <==> !Accepts(s, route) || (EncOf(k, s) == map[] && s.sealed != "" && k.open(s.sealed).None?))
  {
    hide IndexOf;
    var p := Paused(k, s, extendKey);
    assert EncOf(k, s) != map[] ==> k.open(p.sealed) == Some(EncOf(k, s));
    match route
    case Token =>
      var c := ClaimsOf(p);
      assert k.validate(k.sign(c)) == Some(c);
      assert OrEmpty(c.raw) == CtxOf(s) - {extendKey};
    case Identifier(_, _) =>
  }

  /** A rejected submission stores a state whose contexts have been read, and nothing else has changed. */
  lemma RejectedIsRead(k: Keys, s: State)
    ensures var n := Rejected(k, s);
            && n == s.(ctx := n.ctx, enc := n.enc) && n.ctx == Some(Observe(k, s).ctx) && n.enc == Some(Observe(k, s).enc)
            && Observe(k, n) == Observe(k, s)
  {
  }

  /** What a rejected submission leaves in the store: the resumed state with its contexts read. */
  function Rejected(k: Keys, s: State): State {
    s.(ctx := Some(CtxOf(s)), enc := Some(EncOf(k, s)))
  }

  /**
   * A submission refused by input validation changes nothing for the next one: a
   * retry with the same token observes what it would have observed coming first.
   */
  lemma RetryAfterRejection(k: Keys, token: string, prev: State)
    requires Inverse(k)
    ensures var first := ResumeToken(k, token, prev);
            first.Ok? ==>
              var retry := ResumeToken(k, token, Rejected(k, first.value));
              && retry.Ok? && Observe(k, retry.value) == Observe(k, first.value)
              && Rejected(k, first.value).jti == first.value.jti == retry.value.jti
  {
  }

  /** The stored state after `n` submissions of one token were rejected in turn. */
  function AfterRejections(k: Keys, token: string, prev: State, n: nat): State {
    if n == 0 then prev
    else
      var before := AfterRejections(k, token, prev, n - 1);
      match ResumeToken(k, token, before)
      case Ok(s) => Rejected(k, s)
      case Err => before
  }

  /** However often a token is rejected, the next submission observes what the first one observed. */
  lemma {:induction false} RejectionsAreInvisible(k: Keys, token: string, prev: State, n: nat)
    requires Inverse(k) && ResumeToken(k, token, prev).Ok?
    ensures var last := ResumeToken(k, token, AfterRejections(k, token, prev, n));
            last.Ok? && Observe(k, last.value) == Observe(k, ResumeToken(k, token, prev).value)
  {
    if n > 0 {
      hide ResumeToken, Observe;
      RejectionsAreInvisible(k, token, prev, n - 1);
      RetryAfterRejection(k, token, AfterRejections(k, token, prev, n - 1));
    }
  }

  // ----- Said of the fields -----

  /**
   * A state whose three trees were in use: what was written to them is what the next
   * run reads, whatever the serialised forms of before were.
   */
  lemma WrittenContextsComeBack(k: Keys, s: State, ctx: Data, enc: Data, closed: Data, extendKey: string, route: Route)
    requires Inverse(k) && Accepts(s, route)
    requires s.ctx == Some(ctx) && s.enc == Some(enc) && s.closed == Some(closed) && enc != map[]
    ensures var r := Back(k, s, extendKey, route);
            && r.Ok? && r.value.ctx == None && r.value.raw == (if ctx - {extendKey} == map[] && route.Token? then None else Some(ctx - {extendKey}))
            && r.value.enc == Some(enc) && r.value.closed == Some(closed) && r.value.temp == Some(map[])
            && r.value.trackings == s.trackings && r.value.realm == s.realm && r.value.sealed == k.seal(enc)
            && r.value.jti == match route case Token => s.jti case Identifier(resumeId, _) => resumeId
  {
    hide IndexOf;
    var p := Paused(k, s, extendKey);
    var c := ClaimsOf(p);
    assert k.validate(k.sign(c)) == Some(c);
  }

  /** A token is refused if it is not valid, or if the frame on top names no journey, or if an old ciphertext cannot be read. */
  lemma TokenIsRefusedIff(k: Keys, token: string, prev: State)
    ensures ResumeToken(k, token, prev).Err? <==>
            match k.validate(token)
            case None => true
            case Some(c) =>
              || c.trackings == [] || Split(c.trackings[|c.trackings| - 1]).journey == ""
              || (prev.enc == None && c.sealed != "" && k.open(c.sealed) == None)
  {
    hide IndexOf;
  }

  /** A resume id is refused if the closed context names no journey, if there is no frame, or if an old ciphertext cannot be read. */
  lemma IdentifierIsRefusedIff(k: Keys, prev: State, journeyKey: string)
    ensures ResumeSuspended(k, prev, journeyKey).Err? <==>
            || prev.closed == None || journeyKey !in prev.closed.value || prev.closed.value[journeyKey] == ""
            || prev.trackings == None || prev.trackings.value == []
            || (prev.enc == None && prev.sealed != "" && k.open(prev.sealed) == None)
  {
  }

  // ----- The state object, updated in place -----

  class JourneyState {
    var jti: string
    var realm: string
    var trackings: Option<seq<string>>
    var raw: Option<Data>
    var ctx: Option<Data>
    var sealed: string
    var enc: Option<Data>
    var closed: Option<Data>
    var temp: Option<Data>
    var encryptionFailed: bool

    ghost function Snapshot(): State
      reads this
    {
      State(jti, realm, trackings, raw, ctx, sealed, enc, closed, temp)
    }

    constructor FromToken(c: Claims)
      ensures Snapshot() == FromClaims(c) && !encryptionFailed
    {
      jti, realm, trackings, raw, ctx := c.jti, c.realm, Some(c.trackings), c.raw, None;
      sealed, enc, closed, temp, encryptionFailed := c.sealed, None, None, None, false;
    }

    method GetCtx() returns (d: Data)
      modifies this`ctx
      ensures d == CtxOf(old(Snapshot())) && ctx == Some(d)
    {
      if ctx.None? { ctx := Some(if raw.Some? then raw.value else map[]); }
      d := ctx.value;
    }

    method GetEncryptedCtx(k: Keys) returns (d: Data)
      modifies this`enc, this`encryptionFailed
      ensures d == EncOf(k, old(Snapshot())) && enc == Some(d)
      ensures encryptionFailed == (old(encryptionFailed) || (old(enc).None? && sealed != "" && k.open(sealed).None?))
    {
      if enc.None? {
        if sealed != "" {
          var plain := k.open(sealed);
          if plain.None? { encryptionFailed := true; }
          enc := Some(OrEmpty(plain));
        } else {
          enc := Some(map[]);
        }
      }
      d := enc.value;
    }

    method ClearState()
      modifies this
      ensures Snapshot() == Clear(old(Snapshot()))
    {
      ctx, enc, temp := None, None, None;
    }

    method MergeState(prev: JourneyState)
      requires prev != this
      modifies this
      ensures Snapshot() == Merge(old(Snapshot()), prev.Snapshot()) && encryptionFailed == old(encryptionFailed)
    {
      if trackings.None? { trackings := prev.trackings; }
      if enc.None? { enc := prev.enc; }
      if closed.None? { closed := prev.closed; }
      if temp.None? { temp := prev.temp; }
      if realm == "" { realm := prev.realm; }
    }

    method SerializeContext(k: Keys)
      modifies this
      ensures Snapshot() == Serialize(k, old(Snapshot()))
    {
      var c := GetCtx();
      raw := Some(c);
      var e := GetEncryptedCtx(k);
      if e != map[] { sealed := k.seal(e); }
    }
  }

  /** The in-memory store of paused states and the operations of the manager on it. */
  class Manager {
    const keys: Keys
    const extendKey: string
    var states: map<string, JourneyState>

    constructor (k: Keys, e: string)
      ensures keys == k && extendKey == e && states == map[]
    {
      keys, extendKey, states := k, e, map[];
    }

    /** Store refuses a state without an id. */
    method Store(s: JourneyState) returns (ok: bool)
      modifies this
      ensures ok == (s.jti != "")
      ensures states == if ok then old(states)[s.jti := s] else old(states)
    {
      ok := s.jti != "";
      if ok { states := states[s.jti := s]; }
    }

    /** A state can be taken once: it leaves the store with the lookup. */
    method GetAndDelete(id: string) returns (s: Option<JourneyState>)
      modifies this
      ensures s == if id in old(states) then Some(old(states)[id]) else None
      ensures states == old(states) - {id}
    {
      s := None;
      if id in states {
        s := Some(states[id]);
        states := states - {id};
      } else {
        assert states == states - {id};
      }
    }

    method PauseJourney(s: JourneyState) returns (token: Result<string>)
      modifies this, s
      ensures s.Snapshot() == Clear(Paused(keys, old(s.Snapshot()), extendKey))
      ensures old(s.jti) == "" ==> token.Err? && states == old(states)
      ensures old(s.jti) != "" ==>
                && token == Ok(keys.sign(ClaimsOf(Paused(keys, old(s.Snapshot()), extendKey))))
                && states == old(states)[old(s.jti) := s]
    {
      var c := s.GetCtx();
      s.ctx := Some(c - {extendKey});
      s.SerializeContext(keys);
      var jwt := keys.sign(Claims(s.jti, s.realm, if s.trackings.Some? then s.trackings.value else [],
                                  if s.raw.Some? && s.raw.value != map[] then s.raw else None, s.sealed));
      s.ClearState();
      var stored := Store(s);
      token := if stored then Ok(jwt) else Err;
    }

    /** pauseJourney for a suspended journey: the state is stored under the resume id, without a token. */
    method SuspendJourney(s: JourneyState, resumeId: string) returns (ok: bool)
      modifies this, s
      ensures ok == (resumeId != "")
      ensures s.Snapshot() == Clear(Paused(keys, old(s.Snapshot()), extendKey).(jti := resumeId))
      ensures states == if ok then old(states)[resumeId := s] else old(states)
    {
      var c := s.GetCtx();
      s.ctx := Some(c - {extendKey});
      s.SerializeContext(keys);
      s.jti := resumeId;
      s.ClearState();
      ok := Store(s);
    }

    /** GetJourneyState in resume mode: the stored state itself goes on, with its temporary context new. */
    method ResumeById(id: string, journeyKey: string) returns (r: Option<JourneyState>)
      modifies this, if id in states then {states[id]} else {}
      ensures states == old(states) - {id}
      ensures id !in old(states) ==> r.None?
      ensures id in old(states) ==>
                var prev := old(states)[id];
                match ResumeSuspended(keys, old(prev.Snapshot()), journeyKey)
                case Err => r.None?
                case Ok(after) => r == Some(prev) && prev.Snapshot() == after
    {
      var found := GetAndDelete(id);
      if found.None? { return None; }
      var s := found.value;
      var closed := if s.closed.Some? then s.closed.value else map[];
      var journey := if journeyKey in closed then closed[journeyKey] else "";
      if journey == "" || s.trackings.None? || s.trackings.value == [] { return None; }
      s.temp := Some(map[]);
      s.encryptionFailed := false;
      if s.sealed != "" {
        var _ := s.GetEncryptedCtx(keys);
        if s.encryptionFailed { return None; }
      }
      return Some(s);
    }

    /** GetJourneyState in token mode: on success a merged state, and the stored one is gone. */
    method ResumeByToken(jwt: string) returns (r: Option<JourneyState>)
      requires Inverse(keys)
      modifies this
      ensures match keys.validate(jwt)
              case None => r.None? && states == old(states)
              case Some(c) =>
                if !Resumable(c.trackings) then r.None? && states == old(states)
                else if c.jti !in old(states) then r.None? && states == old(states) - {c.jti}
                else
                  && states == old(states) - {c.jti}
                  && (r.Some? <==> ResumeToken(keys, jwt, old(states)[c.jti].Snapshot()).Ok?)
                  && (r.Some? ==> fresh(r.value))
                  && (r.Some? ==> ResumeToken(keys, jwt, old(states)[c.jti].Snapshot()) == Ok(r.value.Snapshot()))
    {
      var claims := keys.validate(jwt);
      if claims.None? || !Resumable(claims.value.trackings) { return None; }
      var prev := GetAndDelete(claims.value.jti);
      if prev.None? { return None; }
      var s := new JourneyState.FromToken(claims.value);
      s.MergeState(prev.value);
      s.temp := Some(map[]);
      if s.sealed != "" {
        var _ := s.GetEncryptedCtx(keys);
        if s.encryptionFailed { return None; }
      }
      return Some(s);
    }
  }
}
