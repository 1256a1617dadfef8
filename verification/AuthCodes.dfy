/** Single-use authorization codes in three storage tiers: memory, Postgres and Redis. */
module AuthCodes {
  import opened Options

  datatype AuthCode = AuthCode(
    clientId: string, userId: string, scope: string, redirectUri: string, codeChallenge: string,
    codeChallengeMethod: string, expiresAt: int, used: bool, nonce: string, authTime: int, amr: string, orgId: Option<int>)

  type Codes = map<string, AuthCode>

  /** A call, at the millisecond it is handled. */
  datatype Call =
    | Consume(code: string, redirectUri: string, now: int)
    | MarkUsed(code: string, now: int)

  /** A recorded redirect_uri must be repeated exactly. */
  predicate Matches(c: AuthCode, redirectUri: string) { c.redirectUri == "" || redirectUri == c.redirectUri }

  function Burnt(codes: Codes, code: string): (r: Codes)
  {
    if code in codes then codes[code := codes[code].(used := true)] else codes
  }

  // ---------- Memory ----------

  function MemoryAnswer(codes: Codes, call: Call): (r: Option<AuthCode>)
  {
    if call.Consume? && call.code in codes && !codes[call.code].used && Matches(codes[call.code], call.redirectUri)
    then Some(codes[call.code].(used := true)) else None
  }

  function MemoryAfter(codes: Codes, call: Call): (r: Codes)
  {
    if call.MarkUsed? || MemoryAnswer(codes, call).Some? then Burnt(codes, call.code) else codes
  }

  class MemoryGrantRepository {
    var authCodes: Codes

    constructor (codes: Codes)
      ensures authCodes == codes
    {
      authCodes := codes;
    }

    method MarkAuthCodeUsed(code: string)
      modifies this
      ensures forall now :: authCodes == MemoryAfter(old(authCodes), MarkUsed(code, now))
    {
      if code in authCodes {
        authCodes := authCodes[code := authCodes[code].(used := true)];
      }
    }

    method ConsumeAuthCode(code: string, redirectUri: string) returns (r: Option<AuthCode>)
      modifies this
      ensures forall now :: r == MemoryAnswer(old(authCodes), Consume(code, redirectUri, now))
      ensures forall now :: authCodes == MemoryAfter(old(authCodes), Consume(code, redirectUri, now))
    {
      if code in authCodes {
        if !authCodes[code].used {
          if authCodes[code].redirectUri != "" && redirectUri != authCodes[code].redirectUri {
            return None;
          }
          authCodes := authCodes[code := authCodes[code].(used := true)];
          return Some(authCodes[code]);
        }
      }
      return None;
    }
  }

  // ---------- Postgres ----------

  /** The conditional UPDATE comes first, the redirect_uri is compared afterwards. */
  function PostgresAnswer(codes: Codes, call: Call): (r: Option<AuthCode>) { MemoryAnswer(codes, call) }

  function PostgresAfter(codes: Codes, call: Call): (r: Codes) { Burnt(codes, call.code) }

  class PostgresGrantRepository {
    var oauth2Codes: Codes

    constructor (codes: Codes)
      ensures oauth2Codes == codes
    {
      oauth2Codes := codes;
    }

    method MarkAuthCodeUsed(code: string)
      modifies this
      ensures forall now :: oauth2Codes == PostgresAfter(old(oauth2Codes), MarkUsed(code, now))
    {
      if code in oauth2Codes {
        oauth2Codes := oauth2Codes[code := oauth2Codes[code].(used := true)];
      }
    }

    method ConsumeAuthCode(code: string, redirectUri: string) returns (r: Option<AuthCode>)
      modifies this
      ensures forall now :: r == PostgresAnswer(old(oauth2Codes), Consume(code, redirectUri, now))
      ensures forall now :: oauth2Codes == PostgresAfter(old(oauth2Codes), Consume(code, redirectUri, now))
    {
      if code !in oauth2Codes || oauth2Codes[code].used {
        assert code in oauth2Codes ==> oauth2Codes[code := oauth2Codes[code].(used := true)] == oauth2Codes;
        return None;
      }
      oauth2Codes := oauth2Codes[code := oauth2Codes[code].(used := true)];
      var row := oauth2Codes[code];
      if row.redirectUri != "" && redirectUri != row.redirectUri {
        return None;
      }
      return Some(row);
    }
  }

  // ---------- Redis ----------

  /** A key with the millisecond it expires at, if it does. */
  datatype Entry = Entry(value: AuthCode, deadline: Option<int>)

  type Keys = map<string, Entry>

  predicate Live(keys: Keys, code: string, now: int)
  {
    code in keys && (keys[code].deadline.Some? ==> now < keys[code].deadline.value)
  }

  /** The TTL command: seconds left, rounded to the nearest, or -1 for a key that never expires. */
  function Ttl(e: Entry, now: int): (seconds: int)
  {
    match e.deadline
    case Some(d) => (d - now + 500) / 1000
    case None => -1
  }

  /** The scripts' rewrite with used = true: SETEX with the TTL, or a plain SET when it is not
      positive, which drops the expiry. */
  function Rewritten(keys: Keys, code: string, now: int): (r: Keys)
    requires code in keys
  {
    var e := keys[code];
    keys[code := Entry(e.value.(used := true), if Ttl(e, now) > 0 then Some(now + 1000 * Ttl(e, now)) else None)]
  }

  /** A used code keeps its lifetime to within half a second; with less than that left it loses its
      expiry and stays. */
  lemma RewriteKeepsLifetime(keys: Keys, code: string, now: int)
    requires Live(keys, code, now)
    ensures var before, after := keys[code], Rewritten(keys, code, now)[code];
      && after.value == before.value.(used := true)
      && (after.deadline.None? <==> before.deadline.None? || before.deadline.value - now < 500)
      && (after.deadline.Some? ==> -500 < after.deadline.value - before.deadline.value <= 500)
    ensures forall k :: k != code ==> (k in Rewritten(keys, code, now) <==> k in keys) && (k in keys ==> Rewritten(keys, code, now)[k] == keys[k])
  {
    var e := keys[code];
    if e.deadline.Some? {
      var left := e.deadline.value - now;
      assert left + 500 == 1000 * Ttl(e, now) + (left + 500) % 1000;
    }
  }

  function RedisAnswer(keys: Keys, call: Call): (r: Option<AuthCode>)
  {
    if call.Consume? && Live(keys, call.code, call.now) && !keys[call.code].value.used
       && Matches(keys[call.code].value, call.redirectUri)
    then Some(keys[call.code].value.(used := true)) else None
  }

  function RedisAfter(keys: Keys, call: Call): (r: Keys)
  {
    if (call.MarkUsed? && Live(keys, call.code, call.now)) || RedisAnswer(keys, call).Some?
    then Rewritten(keys, call.code, call.now) else keys
  }

  class RedisGrantRepository {
    var keys: Keys

    constructor (keys: Keys)
      ensures this.keys == keys
    {
      this.keys := keys;
    }

    method MarkAuthCodeUsed(code: string, now: int)
      modifies this
      ensures keys == RedisAfter(old(keys), MarkUsed(code, now))
    {
      if !Live(keys, code, now) { return; }
      var e := keys[code];
      var ttl := Ttl(e, now);
      if ttl > 0 {
        keys := keys[code := Entry(e.value.(used := true), Some(now + 1000 * ttl))];
      } else {
        keys := keys[code := Entry(e.value.(used := true), None)];
      }
    }

    method ConsumeAuthCode(code: string, redirectUri: string, now: int) returns (r: Option<AuthCode>)
      modifies this
      ensures r == RedisAnswer(old(keys), Consume(code, redirectUri, now))
      ensures keys == RedisAfter(old(keys), Consume(code, redirectUri, now))
    {
      if !Live(keys, code, now) { return None; }
      var e := keys[code];
      if e.value.used { return None; }
      if e.value.redirectUri != "" && redirectUri != e.value.redirectUri { return None; }
      var ttl := Ttl(e, now);
      var value := e.value.(used := true);
      keys := keys[code := Entry(value, if ttl > 0 then Some(now + 1000 * ttl) else None)];
      return Some(value);
    }
  }

  // ---------- Runs ----------

  function MemoryRun(codes: Codes, calls: seq<Call>): (r: Codes)
  {
    if calls == [] then codes else MemoryAfter(MemoryRun(codes, calls[..|calls| - 1]), calls[|calls| - 1])
  }

  function PostgresRun(codes: Codes, calls: seq<Call>): (r: Codes)
  {
    if calls == [] then codes else PostgresAfter(PostgresRun(codes, calls[..|calls| - 1]), calls[|calls| - 1])
  }

  function RedisRun(keys: Keys, calls: seq<Call>): (r: Keys)
  {
    if calls == [] then keys else RedisAfter(RedisRun(keys, calls[..|calls| - 1]), calls[|calls| - 1])
  }

  /** A call that uses up `code` in memory: a mark, or a consume that matches. */
  ghost predicate UsesUp(codes: Codes, call: Call, code: string)
  {
    call.code == code && (call.Consume? ==> code in codes && Matches(codes[code], call.redirectUri))
  }

  /** The code table after a run, said outright: nothing but `used` changes, and a code is used
      exactly if it was or an earlier call used it up. */
  lemma {:induction false} MemoryState(codes: Codes, calls: seq<Call>, code: string)
    ensures var r := MemoryRun(codes, calls);
      && (code in r <==> code in codes)
      && (code in codes ==>
            && r[code] == codes[code].(used := r[code].used)
            && (r[code].used <==> codes[code].used || exists i :: 0 <= i < |calls| && UsesUp(codes, calls[i], code)))
  {
    if calls != [] {
      var k := |calls| - 1;
      var init := calls[..k];
      MemoryState(codes, init, code);
      ExistsLast(codes, calls, code);
    }
  }

  lemma ExistsLast(codes: Codes, calls: seq<Call>, code: string)
    requires calls != []
    ensures var k := |calls| - 1;
      (exists i :: 0 <= i < |calls| && UsesUp(codes, calls[i], code)) <==>
        (exists i :: 0 <= i < k && UsesUp(codes, calls[..k][i], code)) || UsesUp(codes, calls[k], code)
  {
    var k := |calls| - 1;
    assert forall i :: 0 <= i < k ==> calls[..k][i] == calls[i];
    hide UsesUp;
  }

  lemma {:induction false} PostgresState(codes: Codes, calls: seq<Call>, code: string)
    ensures var r := PostgresRun(codes, calls);
      && (code in r <==> code in codes)
      && (code in codes ==>
            && r[code] == codes[code].(used := r[code].used)
            && (r[code].used <==> codes[code].used || exists i :: 0 <= i < |calls| && calls[i].code == code))
  {
    if calls != [] {
      var k := |calls| - 1;
      PostgresState(codes, calls[..k], code);
      assert forall i :: 0 <= i < k ==> calls[..k][i] == calls[i];
    }
  }

  /** In memory a code is redeemed at most once, and only with the recorded redirect_uri. */
  lemma MemoryRedeemsOnce(codes: Codes, calls: seq<Call>, i: nat, j: nat)
    requires i < j < |calls| && calls[i].code == calls[j].code
    requires MemoryAnswer(MemoryRun(codes, calls[..i]), calls[i]).Some?
    ensures calls[i].code in codes && Matches(codes[calls[i].code], calls[i].redirectUri)
    ensures MemoryAnswer(MemoryRun(codes, calls[..j]), calls[j]) == None
  {
    var code := calls[i].code;
    MemoryState(codes, calls[..i], code);
    MemoryState(codes, calls[..j], code);
    assert calls[..j][i] == calls[i] && UsesUp(codes, calls[..j][i], code);
  }

  /** When memory redeems: the code is known and was not used at the start, the redirect_uri is the
      recorded one or none is recorded, and no earlier call marked the code or presented it with a
      redirect_uri that would do. The caller gets the code as it was saved. */
  lemma MemoryRedeemsIff(codes: Codes, calls: seq<Call>, i: nat)
    requires i < |calls| && calls[i].Consume?
    ensures var code := calls[i].code; var r := MemoryAnswer(MemoryRun(codes, calls[..i]), calls[i]);
      && (r.Some? <==>
            && code in codes && !codes[code].used
            && (codes[code].redirectUri != "" ==> calls[i].redirectUri == codes[code].redirectUri)
            && forall j :: 0 <= j < i && calls[j].code == code ==>
                 calls[j].Consume? && codes[code].redirectUri != "" && calls[j].redirectUri != codes[code].redirectUri)
      && (r.Some? ==> r.value == codes[code].(used := true))
  {
    var code := calls[i].code;
    MemoryState(codes, calls[..i], code);
    assert forall j :: 0 <= j < i ==> calls[..i][j] == calls[j];
    hide MemoryRun;
    if exists j :: 0 <= j < i && UsesUp(codes, calls[j], code) {
      var j :| 0 <= j < i && UsesUp(codes, calls[j], code);
      assert UsesUp(codes, calls[..i][j], code);
    }
  }

  /** When Postgres redeems: as memory does, if the code was not presented before at all. */
  lemma PostgresRedeemsIff(codes: Codes, calls: seq<Call>, i: nat)
    requires i < |calls| && calls[i].Consume?
    ensures var code := calls[i].code; var r := PostgresAnswer(PostgresRun(codes, calls[..i]), calls[i]);
      && (r.Some? <==>
            && code in codes && !codes[code].used
            && (codes[code].redirectUri != "" ==> calls[i].redirectUri == codes[code].redirectUri)
            && forall j :: 0 <= j < i ==> calls[j].code != code)
      && (r.Some? ==> r.value == codes[code].(used := true))
  {
    PostgresState(codes, calls[..i], calls[i].code);
    assert forall j :: 0 <= j < i ==> calls[..i][j] == calls[j];
    hide PostgresRun;
  }

  /** What a code reads back as once saved in Postgres or Redis: both leave out the challenge method
      without a challenge, and the authentication time unless positive. */
  function ReadBack(c: AuthCode): (r: AuthCode)
  {
    c.(codeChallengeMethod := if c.codeChallenge == "" then "" else c.codeChallengeMethod,
       authTime := if c.authTime > 0 then c.authTime else 0)
  }

  /** saveAuthCode in Postgres, for each code. */
  function SavedRows(codes: Codes): (rows: Codes) { map code | code in codes :: ReadBack(codes[code]) }

  /** For codes saved in both tiers: every Postgres success is a success in memory at the same call,
      with the value as Postgres stores it; and a success in memory is one in Postgres exactly if that
      code had not been presented before, because there a mismatch has used it up. */
  lemma PostgresIsStricter(codes: Codes, calls: seq<Call>, i: nat)
    requires i < |calls|
    ensures var pg, mem := PostgresAnswer(PostgresRun(SavedRows(codes), calls[..i]), calls[i]), MemoryAnswer(MemoryRun(codes, calls[..i]), calls[i]);
      && (pg.Some? ==> mem.Some? && pg.value == ReadBack(mem.value))
      && (mem.Some? ==> (pg.Some? <==> forall j :: 0 <= j < i ==> calls[j].code != calls[i].code))
  {
    var code := calls[i].code;
    MemoryState(codes, calls[..i], code);
    PostgresState(SavedRows(codes), calls[..i], code);
    assert forall j :: 0 <= j < i ==> calls[..i][j] == calls[j];
  }

  /** In Postgres, too, a code is redeemed at most once. */
  lemma PostgresRedeemsOnce(codes: Codes, calls: seq<Call>, i: nat, j: nat)
    requires i < j < |calls| && calls[i].code == calls[j].code
    requires PostgresAnswer(PostgresRun(codes, calls[..i]), calls[i]).Some?
    ensures PostgresAnswer(PostgresRun(codes, calls[..j]), calls[j]) == None
  {
    var code := calls[i].code;
    PostgresState(codes, calls[..i], code);
    PostgresState(codes, calls[..j], code);
    assert calls[..j][i] == calls[i];
  }

  /** The converse fails: after a mismatch the right redirect_uri still redeems in memory. */
  lemma MismatchExample(c: AuthCode, wrong: string, now: int)
    requires c.redirectUri != "" && wrong != c.redirectUri && !c.used
    ensures var codes, calls := map["c" := c], [Consume("c", wrong, now), Consume("c", c.redirectUri, now)];
      && MemoryAnswer(MemoryRun(codes, calls[..1]), calls[1]) == Some(c.(used := true))
      && PostgresAnswer(PostgresRun(codes, calls[..1]), calls[1]) == None
  {
    var codes, first := map["c" := c], Consume("c", wrong, now);
    var calls := [first, Consume("c", c.redirectUri, now)];
    assert calls[..1] == [first] && [first][..0] == [];
    assert MemoryRun(codes, []) == codes && PostgresRun(codes, []) == codes;
    assert MemoryRun(codes, [first]) == codes;
    assert PostgresRun(codes, [first]) == Burnt(codes, "c");
  }

  // ---------- Memory and Redis ----------

  /** Redis holds every unused code as it was saved; a used one it holds as used, or has let expire. */
  ghost predicate Mirrors(codes: Codes, keys: Keys, saved: Keys)
  {
    && (forall code :: code in codes && !codes[code].used ==>
          code in keys && code in saved && keys[code] == saved[code] && keys[code].value == codes[code])
    && (forall code :: code in keys ==> code in codes && (codes[code].used ==> keys[code].value.used))
  }

  /** saveAuthCode: SETEX with the seconds to expiry, at least one. */
  function SavedKeys(codes: Codes, nowSec: int): (keys: Keys)
  {
    map code | code in codes ::
      Entry(ReadBack(codes[code]),
            Some(1000 * (nowSec + if codes[code].expiresAt > nowSec then codes[code].expiresAt - nowSec else 1)))
  }

  /** Codes saved in both tiers mirror each other exactly if every unused one has no challenge method
      without a challenge and no negative authentication time. */
  lemma SavedMirrors(codes: Codes, nowSec: int)
    ensures var keys := SavedKeys(codes, nowSec);
      Mirrors(codes, keys, keys) <==>
        forall code :: code in codes && !codes[code].used ==>
          (codes[code].codeChallenge == "" ==> codes[code].codeChallengeMethod == "") && codes[code].authTime >= 0
  {
    var keys := SavedKeys(codes, nowSec);
    assert forall code :: code in codes ==> keys[code].value == ReadBack(codes[code]);
    forall code | code in codes
      ensures ReadBack(codes[code]) == codes[code] <==>
        (codes[code].codeChallenge == "" ==> codes[code].codeChallengeMethod == "") && codes[code].authTime >= 0
    {
    }
  }

  /** Two codes on which memory answers differently from the other tiers: a challenge method without a challenge, and an
      authentication time before the epoch. */
  lemma ReadBackExample(c: AuthCode, nowSec: int)
    requires !c.used && c.redirectUri == "" && c.expiresAt > nowSec
    requires (c.codeChallenge == "" && c.codeChallengeMethod == "S256") || c.authTime == -1
    ensures var codes := map["c" := c]; var call := Consume("c", "", 1000 * nowSec);
      && MemoryAnswer(codes, call) == Some(c.(used := true))
      && RedisAnswer(SavedKeys(codes, nowSec), call) == Some(ReadBack(c).(used := true))
      && PostgresAnswer(SavedRows(codes), call) == Some(ReadBack(c).(used := true))
      && ReadBack(c).(used := true) != c.(used := true)
  {
    var keys := SavedKeys(map["c" := c], nowSec);
    assert keys["c"] == Entry(ReadBack(c), Some(1000 * c.expiresAt));
    assert c.authTime == -1 ==> ReadBack(c).authTime == 0;
    assert c.codeChallenge == "" ==> ReadBack(c).codeChallengeMethod == "";
  }

  /** The call comes before the expiry its code was saved with. */
  predicate InTime(saved: Keys, call: Call)
  {
    call.code in saved && saved[call.code].deadline.Some? ==> call.now < saved[call.code].deadline.value
  }

  lemma MirrorAnswer(codes: Codes, keys: Keys, saved: Keys, call: Call)
    requires Mirrors(codes, keys, saved) && InTime(saved, call)
    ensures RedisAnswer(keys, call) == MemoryAnswer(codes, call)
  {
  }

  /** Both tiers leave the code used, or both leave everything as it was, or it was used already. */
  lemma MirrorEffect(codes: Codes, keys: Keys, saved: Keys, call: Call)
    requires Mirrors(codes, keys, saved) && InTime(saved, call)
    ensures var c, k := MemoryAfter(codes, call), RedisAfter(keys, call);
      || (c == codes && k == keys)
      || (call.code in codes && c == codes[call.code := codes[call.code].(used := true)] && k == keys && codes[call.code].used)
      || (call.code in codes && call.code in keys && c == codes[call.code := codes[call.code].(used := true)]
          && call.code in k && k == keys[call.code := k[call.code]] && k[call.code].value.used)
  {
    MirrorAnswer(codes, keys, saved, call);
    hide Ttl, RedisAnswer, MemoryAnswer, Matches;
    assert call.code in codes && !codes[call.code].used ==> Live(keys, call.code, call.now);
  }

  lemma MirrorStep(codes: Codes, keys: Keys, saved: Keys, call: Call)
    requires Mirrors(codes, keys, saved) && InTime(saved, call)
    ensures Mirrors(MemoryAfter(codes, call), RedisAfter(keys, call), saved)
  {
    MirrorEffect(codes, keys, saved, call);
    hide MemoryAfter, RedisAfter, InTime;
  }

  lemma {:induction false} MirrorRun(codes: Codes, keys: Keys, calls: seq<Call>)
    requires Mirrors(codes, keys, keys) && forall i :: 0 <= i < |calls| ==> InTime(keys, calls[i])
    ensures Mirrors(MemoryRun(codes, calls), RedisRun(keys, calls), keys)
  {
    hide Mirrors, InTime, MemoryAfter, RedisAfter;
    if calls != [] {
      var k := |calls| - 1;
      assert forall i :: 0 <= i < k ==> calls[..k][i] == calls[i];
      MirrorRun(codes, keys, calls[..k]);
      MirrorStep(MemoryRun(codes, calls[..k]), RedisRun(keys, calls[..k]), keys, calls[k]);
    }
  }

  /** Before expiry, memory and Redis give identical answers to every call of every sequence, although
      a rewrite may shorten a key's life or make it permanent. */
  lemma RedisAnswersAsMemory(codes: Codes, keys: Keys, calls: seq<Call>, i: nat)
    requires Mirrors(codes, keys, keys) && i < |calls| && forall j :: 0 <= j < |calls| ==> InTime(keys, calls[j])
    ensures RedisAnswer(RedisRun(keys, calls[..i]), calls[i]) == MemoryAnswer(MemoryRun(codes, calls[..i]), calls[i])
  {
    assert forall j :: 0 <= j < i ==> calls[..i][j] == calls[j];
    MirrorRun(codes, keys, calls[..i]);
    MirrorAnswer(MemoryRun(codes, calls[..i]), RedisRun(keys, calls[..i]), keys, calls[i]);
  }

  /** Saved in both, every Postgres success before expiry is a Redis success with the same value. */
  lemma PostgresSuccessIsRedisSuccess(codes: Codes, nowSec: int, calls: seq<Call>, i: nat)
    requires i < |calls| && forall j :: 0 <= j < |calls| ==> InTime(SavedKeys(codes, nowSec), calls[j])
    ensures var pg := PostgresAnswer(PostgresRun(SavedRows(codes), calls[..i]), calls[i]);
      pg.Some? ==> RedisAnswer(RedisRun(SavedKeys(codes, nowSec), calls[..i]), calls[i]) == pg
  {
    var rows, keys := SavedRows(codes), SavedKeys(codes, nowSec);
    assert SavedRows(rows) == rows;
    assert Mirrors(rows, keys, keys);
    PostgresIsStricter(rows, calls, i);
    RedisAnswersAsMemory(rows, keys, calls, i);
    MemoryState(rows, calls[..i], calls[i].code);
    hide MemoryRun, RedisRun, PostgresRun, Mirrors, InTime, SavedKeys;
  }

  /** A Redis code is redeemed at most once even past its expiry, on a clock that may jump. */
  lemma RedisRedeemsOnce(keys: Keys, calls: seq<Call>, i: nat, j: nat)
    requires i < j < |calls| && calls[i].code == calls[j].code
    requires RedisAnswer(RedisRun(keys, calls[..i]), calls[i]).Some?
    ensures Matches(RedisRun(keys, calls[..i])[calls[i].code].value, calls[i].redirectUri)
    ensures RedisAnswer(RedisRun(keys, calls[..j]), calls[j]) == None
  {
    StaysUsed(keys, calls, calls[i].code, i + 1, j);
  }

  lemma {:induction false} StaysUsed(keys: Keys, calls: seq<Call>, code: string, i: nat, j: nat)
    requires 1 <= i <= j < |calls| && calls[i - 1].code == code && RedisAnswer(RedisRun(keys, calls[..i - 1]), calls[i - 1]).Some?
    ensures var r := RedisRun(keys, calls[..j]); code in r && r[code].value.used
    decreases j - i
  {
    hide Ttl;
    assert calls[..j][..j - 1] == calls[..j - 1];
    if i < j { StaysUsed(keys, calls, code, i, j - 1); }
  }

  /** A call that uses up `code` in Redis: one made before it expires, as in memory. */
  ghost predicate UsesUpKey(keys: Keys, call: Call, code: string)
  {
    && call.code == code && Live(keys, code, call.now)
    && (call.Consume? ==> Matches(keys[code].value, call.redirectUri))
  }

  lemma RedisStep(keys: Keys, r: Keys, call: Call, code: string)
    requires code in keys && !keys[code].value.used && code in r && (!r[code].value.used ==> r[code] == keys[code])
    ensures var t := RedisAfter(r, call);
      && code in t && (!t[code].value.used ==> t[code] == keys[code])
      && (t[code].value.used <==> r[code].value.used || UsesUpKey(keys, call, code))
  {
    hide Ttl;
  }

  /** An unused code stays as it is saved until a call uses it up. */
  lemma {:induction false} RedisState(keys: Keys, calls: seq<Call>, code: string)
    requires code in keys && !keys[code].value.used
    ensures var r := RedisRun(keys, calls);
      && code in r && (!r[code].value.used ==> r[code] == keys[code])
      && (r[code].value.used <==> exists i :: 0 <= i < |calls| && UsesUpKey(keys, calls[i], code))
  {
    if calls != [] {
      var k := |calls| - 1;
      RedisState(keys, calls[..k], code);
      RedisStep(keys, RedisRun(keys, calls[..k]), calls[k], code);
      assert forall i :: 0 <= i < k ==> calls[..k][i] == calls[i];
      hide UsesUpKey, RedisAfter;
      if UsesUpKey(keys, calls[k], code) { assert UsesUpKey(keys, calls[|calls| - 1], code); }
      if exists i :: 0 <= i < k && UsesUpKey(keys, calls[i], code) {
        var i :| 0 <= i < k && UsesUpKey(keys, calls[i], code);
        assert UsesUpKey(keys, calls[..k][i], code);
      }
    }
  }

  lemma {:induction false} RedisKeepsUsed(keys: Keys, calls: seq<Call>, code: string)
    ensures var r := RedisRun(keys, calls);
      (code in r <==> code in keys) && (code in keys && keys[code].value.used ==> r[code].value.used)
  {
    hide Ttl;
    if calls != [] { RedisKeepsUsed(keys, calls[..|calls| - 1], code); }
  }

  /** When Redis redeems: the code is there, unused and not expired, the redirect_uri is the recorded
      one or none is recorded, and every earlier call on it came too late or with a wrong one. */
  lemma {:induction false} RedisRedeemsIff(keys: Keys, calls: seq<Call>, i: nat)
    requires i < |calls| && calls[i].Consume?
    ensures var code := calls[i].code; var r := RedisAnswer(RedisRun(keys, calls[..i]), calls[i]);
      && (r.Some? <==>
            && code in keys && !keys[code].value.used
            && (keys[code].deadline.Some? ==> calls[i].now < keys[code].deadline.value)
            && (keys[code].value.redirectUri != "" ==> calls[i].redirectUri == keys[code].value.redirectUri)
            && forall j :: 0 <= j < i && calls[j].code == code ==> Missed(keys[code], calls[j]))
      && (r.Some? ==> r.value == keys[code].value.(used := true))
  {
    var code := calls[i].code;
    RedisKeepsUsed(keys, calls[..i], code);
    assert forall j :: 0 <= j < i ==> calls[..i][j] == calls[j];
    if code in keys && !keys[code].value.used {
      RedisState(keys, calls[..i], code);
      hide RedisRun;
      forall j | 0 <= j < i && calls[j].code == code
        ensures UsesUpKey(keys, calls[..i][j], code) <==> !Missed(keys[code], calls[j])
      {
      }
    }
  }

  /** The call was made after the key expired, or consumed with a wrong redirect_uri. */
  predicate Missed(e: Entry, call: Call)
  {
    || (e.deadline.Some? && call.now >= e.deadline.value)
    || (call.Consume? && e.value.redirectUri != "" && call.redirectUri != e.value.redirectUri)
  }
}
