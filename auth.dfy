/** Bookkeeping of the OAuth routes in backend/src/routes/auth.ts: the hex
    state token, the one-shot store of pending states with its ten-minute
    expiry, the choice of e-mail address, bearer-header parsing, the session
    lifetime and the counters of the e-mail backfill. Random bytes, HTTP
    requests to the identity provider, SQL statements and token signing are
    outside the model: their results are inputs. */
module Auth {
  import opened Common

  type Byte = x: int | 0 <= x < 256

  // ---------------------------------------------------------------------------
  // generateState

  predicate IsLowerHex(c: char) {
    '0' <= c <= '9' || 'a' <= c <= 'f'
  }

  function HexDigit(d: nat): (c: char)
    requires d < 16
    ensures IsLowerHex(c)
  {
    if d < 10 then (d + '0' as int) as char else (d - 10 + 'a' as int) as char
  }

  function HexValue(c: char): (d: nat)
    requires IsLowerHex(c)
    ensures d < 16
  {
    if c <= '9' then c as int - '0' as int else c as int - 'a' as int + 10
  }

  lemma HexDigitValue(d: nat)
    requires d < 16
    ensures HexValue(HexDigit(d)) == d
  {
  }

  /** `b.toString(16).padStart(2, "0")`: `toString(16)` prints one digit
      below 16 and two from 16 on; the padding brings both to two. */
  function HexByte(b: Byte): (s: string)
    ensures |s| == 2 && IsLowerHex(s[0]) && IsLowerHex(s[1])
    ensures HexValue(s[0]) * 16 + HexValue(s[1]) == b
  {
    var digits := if b < 16 then [HexDigit(b)] else [HexDigit(b / 16), HexDigit(b % 16)];
    HexDigitValue(b % 16);
    HexDigitValue(b / 16);
    if |digits| < 2 then "0" + digits else digits
  }

  /** `Array.from(array, b => ...).join("")` over the random bytes. */
  function GenerateState(bytes: seq<Byte>): (s: string)
    ensures |s| == 2 * |bytes|
    ensures forall i :: 0 <= i < |s| ==> IsLowerHex(s[i])
  {
    if bytes == [] then "" else HexByte(bytes[0]) + GenerateState(bytes[1..])
  }

  /** Reads a string of lowercase hex digit pairs back into bytes. */
  function DecodeHex(s: string): seq<Byte>
    requires |s| % 2 == 0
    requires forall i :: 0 <= i < |s| ==> IsLowerHex(s[i])
  {
    if s == "" then [] else [HexValue(s[0]) * 16 + HexValue(s[1])] + DecodeHex(s[2..])
  }

  lemma {:induction false} DecodeGenerateState(bytes: seq<Byte>)
    ensures DecodeHex(GenerateState(bytes)) == bytes
  {
    if bytes != [] {
      var s := GenerateState(bytes);
      assert s[2..] == GenerateState(bytes[1..]);
      DecodeGenerateState(bytes[1..]);
    }
  }

  /** The 32 random bytes give a 64-character lowercase hex state, and
      different byte arrays give different states. */
  lemma StateIsInjective(a: seq<Byte>, b: seq<Byte>)
    requires |a| == 32 && |b| == 32
    ensures |GenerateState(a)| == 64
    ensures GenerateState(a) == GenerateState(b) ==> a == b
  {
    DecodeGenerateState(a);
    DecodeGenerateState(b);
  }

  // ---------------------------------------------------------------------------
  // The pending-state store

  /** Entries older than this many milliseconds are removed by the cleanup. */
  const StateMaxAgeMs: int := 10 * 60 * 1000

  datatype CallbackOutcome =
    | InvalidState          // redirect to the error page, "Invalid state"
    | NoCode                // redirect to the error page, "No code provided"
    | ExchangeCode(code: string)  // the code goes on to the token exchange

  /** `oauthStates`: state token to creation time. */
  class OAuthStates {
    var states: map<string, int>

    constructor ()
      ensures states == map[]
    {
      states := map[];
    }

    /** GET /auth/github: the fresh state is stored with its creation time. */
    method Start(state: string, now: int)
      modifies this
      ensures states == old(states)[state := now]
    {
      states := states[state := now];
    }

    /** GET /auth/github/callback up to the token exchange. A missing,
        empty or unknown state is rejected and the store is not touched;
        a known state is deleted before the code is looked at, so one state
        passes this check at most once. */
    method Callback(state: Option<string>, code: Option<string>) returns (outcome: CallbackOutcome)
      modifies this
      ensures !Truthy(state) || state.value !in old(states) ==>
                outcome == InvalidState && states == old(states)
      ensures Truthy(state) && state.value in old(states) ==>
                states == old(states) - {state.value}
                && outcome == (if Truthy(code) then ExchangeCode(code.value) else NoCode)
      ensures outcome != InvalidState ==> state.Some? && state.value !in states
    {
      if !Truthy(state) || state.value !in states {
        return InvalidState;
      }
      states := states - {state.value};
      if !Truthy(code) {
        return NoCode;
      }
      return ExchangeCode(code.value);
    }

    /** The five-minute cleanup: every entry older than ten minutes is
        deleted while the store is iterated; every other entry stays. */
    method Cleanup(now: int)
      modifies this
      ensures states.Keys <= old(states).Keys
      ensures forall s :: s in old(states) ==>
                (s in states <==> now - old(states)[s] <= StateMaxAgeMs)
      ensures forall s :: s in states ==> states[s] == old(states)[s]
    {
      var toVisit := states.Keys;
      while toVisit != {}
        invariant toVisit <= old(states).Keys
        invariant states.Keys <= old(states).Keys
        invariant forall s :: s in states ==> states[s] == old(states)[s]
        invariant forall s :: s in toVisit ==> s in states
        invariant forall s :: s in old(states) && s !in toVisit ==>
                    (s in states <==> now - old(states)[s] <= StateMaxAgeMs)
        decreases toVisit
      {
        var s :| s in toVisit;
        if now - states[s] > StateMaxAgeMs {
          states := states - {s};
        }
        toVisit := toVisit - {s};
      }
    }
  }

  // ---------------------------------------------------------------------------
  // Choosing the user's e-mail address

  datatype EmailRecord = EmailRecord(email: string, primary: bool, verified: bool)

  /** `emails.find(e => e.primary && e.verified)?.email` */
  function FirstPrimaryVerified(emails: seq<EmailRecord>): (r: Option<string>)
    ensures r.Some? <==> exists i :: 0 <= i < |emails| && emails[i].primary && emails[i].verified
    ensures r.Some? ==> exists i :: 0 <= i < |emails| && emails[i].primary && emails[i].verified
                                    && emails[i].email == r.value
                                    && forall j :: 0 <= j < i ==> !(emails[j].primary && emails[j].verified)
  {
    if emails == [] then None
    else if emails[0].primary && emails[0].verified then Some(emails[0].email)
    else
      var r := FirstPrimaryVerified(emails[1..]);
      assert forall i :: 1 <= i < |emails| ==> emails[i] == emails[1..][i - 1];
      r
  }

  /** `emails.find(e => e.verified)?.email` */
  function FirstVerified(emails: seq<EmailRecord>): (r: Option<string>)
    ensures r.Some? <==> exists i :: 0 <= i < |emails| && emails[i].verified
    ensures r.Some? ==> exists i :: 0 <= i < |emails| && emails[i].verified
                                    && emails[i].email == r.value
                                    && forall j :: 0 <= j < i ==> !emails[j].verified
  {
    if emails == [] then None
    else if emails[0].verified then Some(emails[0].email)
    else
      var r := FirstVerified(emails[1..]);
      assert forall i :: 1 <= i < |emails| ==> emails[i] == emails[1..][i - 1];
      r
  }

  /** `primaryEmail?.email || verifiedEmail?.email || null` */
  function EmailFromList(emails: seq<EmailRecord>): Option<string> {
    var r := OrElse(FirstPrimaryVerified(emails), FirstVerified(emails));
    if Truthy(r) then r else None
  }

  /** The callback's address: the profile's e-mail when it is non-empty,
      else (when the e-mail list could be fetched, `emails` present) the
      address of the first primary and verified entry, else that of the
      first verified entry, else none. An address chosen from the list
      always belongs to a verified entry. */
  function SelectEmail(profileEmail: Option<string>, emails: Option<seq<EmailRecord>>): (r: Option<string>)
    ensures r.Some? ==> r.value != ""
    ensures Truthy(profileEmail) ==> r == profileEmail
    ensures !Truthy(profileEmail) && emails.None? ==> r.None?
    ensures !Truthy(profileEmail) && r.Some? ==>
              emails.Some? && exists e :: e in emails.value && e.verified && e.email == r.value
    ensures !Truthy(profileEmail) && emails.Some? && Truthy(FirstPrimaryVerified(emails.value)) ==>
              r == FirstPrimaryVerified(emails.value)
    ensures !Truthy(profileEmail) && emails.Some? && !Truthy(FirstPrimaryVerified(emails.value)) ==>
              r == (if Truthy(FirstVerified(emails.value)) then FirstVerified(emails.value) else None)
  {
    if Truthy(profileEmail) then profileEmail
    else if emails.None? then None
    else EmailFromList(emails.value)
  }

  // ---------------------------------------------------------------------------
  // Bearer header and session lifetime

  datatype AuthHeaderResult = Unauthorized | BearerToken(token: string)

  const BearerPrefix: string := "Bearer "

  /** `/auth/me` and `/auth/logout`: without a header that starts with
      "Bearer " the answer is 401; otherwise the token is the header after
      its first seven characters. */
  function ParseAuthorization(header: Option<string>): (r: AuthHeaderResult)
    ensures r.Unauthorized? <==> header.None? || !(BearerPrefix <= header.value)
    ensures r.BearerToken? ==> header.value == BearerPrefix + r.token
  {
    if header.Some? && BearerPrefix <= header.value then
      assert header.value == header.value[..7] + header.value[7..];
      BearerToken(header.value[7..])
    else Unauthorized
  }

  /** Whatever follows "Bearer " is the token, unchanged. */
  lemma BearerRoundTrip(token: string)
    ensures ParseAuthorization(Some(BearerPrefix + token)) == BearerToken(token)
  {
    assert (BearerPrefix + token)[7..] == token;
  }

  /** A session expires thirty days after it is issued. */
  function SessionExpiresAt(issuedAt: int): (t: int)
    ensures t - issuedAt == 2592000000
  {
    issuedAt + 30 * 24 * 60 * 60 * 1000
  }

  // ---------------------------------------------------------------------------
  // backfillUserEmails

  datatype BackfillUser = BackfillUser(id: int, username: string)

  /** What happened for one user: the e-mail request answered with a non-OK
      status; or it answered with a list, and the UPDATE statement for the
      chosen address failed or not; or something threw before that. */
  datatype BackfillStep =
    | NotOk(status: int)
    | Fetched(emails: seq<EmailRecord>, updateFails: bool)
    | Threw

  /** The address written for a step, if the step succeeds. */
  function BackfilledEmail(step: BackfillStep): Option<string> {
    match step
    case Fetched(emails, updateFails) =>
      if !updateFails then EmailFromList(emails) else None
    case _ => None
  }

  /** The address each user's step writes, if any, in user order. */
  function Outcomes(steps: seq<BackfillStep>): (os: seq<Option<string>>)
    ensures |os| == |steps|
    decreases |steps|
  {
    if steps == [] then [] else Outcomes(steps[..|steps| - 1]) + [BackfilledEmail(steps[|steps| - 1])]
  }

  lemma {:induction false} OutcomeAt(steps: seq<BackfillStep>, i: nat)
    requires i < |steps|
    ensures Outcomes(steps)[i] == BackfilledEmail(steps[i])
    decreases |steps|
  {
    var n := |steps| - 1;
    if i < n {
      OutcomeAt(steps[..n], i);
    }
  }

  /** The writes of the backfill, in user order: one `(id, address)` for
      each user whose outcome is an address, and none for the others. */
  function Updates(users: seq<BackfillUser>, outcomes: seq<Option<string>>): seq<(int, string)>
    requires |outcomes| == |users|
    decreases |users|
  {
    if users == [] then []
    else
      var n := |users| - 1;
      Updates(users[..n], outcomes[..n])
      + (match outcomes[n] case Some(email) => [(users[n].id, email)] case None => [])
  }

  /** The number of users for which an address was written. */
  function CountWritten(outcomes: seq<Option<string>>): (n: nat)
    ensures n <= |outcomes|
    decreases |outcomes|
  {
    if outcomes == [] then 0
    else CountWritten(outcomes[..|outcomes| - 1]) + (if outcomes[|outcomes| - 1].Some? then 1 else 0)
  }

  /** Some user's outcome is the address `u.1`, for the id `u.0`. */
  ghost predicate WrittenFor(users: seq<BackfillUser>, outcomes: seq<Option<string>>, u: (int, string)) {
    exists i :: 0 <= i < |users| && i < |outcomes| && users[i].id == u.0 && outcomes[i] == Some(u.1)
  }

  /** A write is made exactly for a user whose step succeeds, with the
      address chosen for that user. */
  lemma {:induction false} UpdatesMeaning(users: seq<BackfillUser>, outcomes: seq<Option<string>>, u: (int, string))
    requires |outcomes| == |users|
    ensures u in Updates(users, outcomes) <==> WrittenFor(users, outcomes, u)
    decreases |users|
  {
    if users != [] {
      var n := |users| - 1;
      UpdatesMeaning(users[..n], outcomes[..n], u);
      if WrittenFor(users, outcomes, u) {
        var i :| 0 <= i < |users| && i < |outcomes| && users[i].id == u.0 && outcomes[i] == Some(u.1);
        if i < n {
          assert users[..n][i] == users[i] && outcomes[..n][i] == outcomes[i];
        }
      }
      if WrittenFor(users[..n], outcomes[..n], u) {
        var i :| 0 <= i < n && i < n && users[..n][i].id == u.0 && outcomes[..n][i] == Some(u.1);
        assert users[i] == users[..n][i] && outcomes[i] == outcomes[..n][i];
      }
    }
  }

  /** The body of the backfill loop for one user: a failed fetch, a throw,
      a list without a verified address and a failed UPDATE write nothing;
      otherwise the chosen address is written. */
  method ProcessUser(step: BackfillStep) returns (written: Option<string>)
    ensures written == BackfilledEmail(step)
  {
    match step {
    case NotOk(_) =>
      written := None;
    case Threw =>
      written := None;
    case Fetched(emails, updateFails) =>
      var userEmail := EmailFromList(emails);
      if userEmail.Some? {
        written := if updateFails then None else userEmail;
      } else {
        written := None;
      }
    }
  }

  /** The backfill loop over the users that have no e-mail. Each user ends in
      exactly one of the two counters, so they add up to the number of
      users; the successes are the users for which an address was chosen and
      written, and `updates` lists those writes, one per success, in order. */
  method BackfillUserEmails(users: seq<BackfillUser>, steps: seq<BackfillStep>)
    returns (successCount: nat, failCount: nat, updates: seq<(int, string)>)
    requires |steps| == |users|
    ensures successCount + failCount == |users|
    ensures successCount == CountWritten(Outcomes(steps))
    ensures updates == Updates(users, Outcomes(steps))
    ensures |updates| == successCount
  {
    successCount, failCount, updates := 0, 0, [];
    if |users| == 0 {
      return;
    }
    ghost var outcomes := Outcomes(steps);
    var i := 0;
    while i < |users|
      invariant 0 <= i <= |users|
      invariant successCount + failCount == i
      invariant updates == Updates(users[..i], outcomes[..i])
      invariant |updates| == successCount
    {
      var written := ProcessUser(steps[i]);
      OutcomeAt(steps, i);
      successCount, failCount, updates := TallyUser(users, outcomes, i, written, successCount, failCount, updates);
      i := i + 1;
    }
    assert users[..|users|] == users;
    assert outcomes[..|users|] == outcomes;
    UpdatesCount(users, outcomes);
  }

  /** One user's outcome added to the tallies and the updates. */
  method TallyUser(users: seq<BackfillUser>, ghost outcomes: seq<Option<string>>, i: nat, written: Option<string>,
                   successCount: nat, failCount: nat, updates: seq<(int, string)>)
    returns (successCount': nat, failCount': nat, updates': seq<(int, string)>)
    requires |outcomes| == |users| && i < |users| && written == outcomes[i]
    requires updates == Updates(users[..i], outcomes[..i]) && |updates| == successCount
    ensures successCount' + failCount' == successCount + failCount + 1
    ensures updates' == Updates(users[..i + 1], outcomes[..i + 1]) && |updates'| == successCount'
  {
    BackfillStepWritten(users, outcomes, i, updates, written);
    if written.Some? {
      updates' := updates + [(users[i].id, written.value)];
      successCount', failCount' := successCount + 1, failCount;
    } else {
      updates' := updates;
      successCount', failCount' := successCount, failCount + 1;
    }
  }

  lemma BackfillStepWritten(users: seq<BackfillUser>, outcomes: seq<Option<string>>, i: nat,
                            updates: seq<(int, string)>, written: Option<string>)
    requires |outcomes| == |users| && i < |users| && written == outcomes[i]
    requires updates == Updates(users[..i], outcomes[..i])
    ensures (if written.Some? then updates + [(users[i].id, written.value)] else updates)
            == Updates(users[..i + 1], outcomes[..i + 1])
  {
    UpdatesStep(users, outcomes, i);
  }

  /** One more user of the backfill written. */
  lemma UpdatesStep(users: seq<BackfillUser>, outcomes: seq<Option<string>>, i: nat)
    requires |outcomes| == |users| && i < |users|
    ensures Updates(users[..i + 1], outcomes[..i + 1])
         == Updates(users[..i], outcomes[..i]) + (if outcomes[i].Some? then [(users[i].id, outcomes[i].value)] else [])
  {
    assert users[..i + 1][..i] == users[..i] && outcomes[..i + 1][..i] == outcomes[..i];
  }

  /** There is one write per success. */
  lemma {:induction false} UpdatesCount(users: seq<BackfillUser>, outcomes: seq<Option<string>>)
    requires |outcomes| == |users|
    ensures |Updates(users, outcomes)| == CountWritten(outcomes)
    decreases |users|
  {
    if users != [] {
      UpdatesCount(users[..|users| - 1], outcomes[..|users| - 1]);
    }
  }
}
