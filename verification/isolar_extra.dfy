/** The Extra map of a stored iSolar credential and the writers that merge into
    it (internal/credentials/service.go, internal/credentials/isolar_oauth.go). */
module IsolarExtra {
  import opened Readings

  const ACCESS_TOKEN: string := "access_token"
  const REFRESH_TOKEN: string := "refresh_token"

  /** A token is handed out only while it has longer than this to live. */
  const REFRESH_WINDOW: int := 5 * MINUTE

  /** The empty string is the zero secret. */
  datatype Token = Token(access: string, refresh: string, expiresAt: int)

  type Extra = map<string, string>

  /** A change of some keys: None deletes. */
  type Delta = map<string, Option<string>>

  function ApplyDelta(base: Extra, delta: Delta): Extra {
    map k | k in base.Keys + delta.Keys && (k in delta ==> delta[k].Some?) ::
      if k in delta then delta[k].value else base[k]
  }

  function ApplyAll(base: Extra, deltas: seq<Delta>): Extra {
    if deltas == [] then base else ApplyDelta(ApplyAll(base, deltas[..|deltas| - 1]), deltas[|deltas| - 1])
  }

  /** An operator's input: an empty value deletes its key. */
  function InputDelta(input: map<string, string>): Delta {
    map k | k in input :: if input[k] == "" then None else Some(input[k])
  }

  /** A new token: its access token always, its refresh token unless it is zero. */
  function TokenDelta(tok: Token): Delta {
    if tok.refresh == "" then map[ACCESS_TOKEN := Some(tok.access)]
    else map[ACCESS_TOKEN := Some(tok.access), REFRESH_TOKEN := Some(tok.refresh)]
  }

  function Lookup(extra: Extra, key: string): string {
    if key in extra then extra[key] else ""
  }

  /** What a delta does to one key, and that it does nothing to the others. */
  lemma DeltaMeaning(base: Extra, delta: Delta, key: string)
    ensures key !in delta ==> Lookup(ApplyDelta(base, delta), key) == Lookup(base, key)
    ensures key in delta ==>
      Lookup(ApplyDelta(base, delta), key) == if delta[key].Some? then delta[key].value else ""
    ensures key in ApplyDelta(base, delta) <==> if key in delta then delta[key].Some? else key in base
  {
  }

  /** A zero refresh token never overwrites the stored one; the access token
      always does. */
  lemma ZeroRefreshTokenKeepsTheStoredOne(base: Extra, tok: Token)
    ensures Lookup(ApplyDelta(base, TokenDelta(tok)), ACCESS_TOKEN) == tok.access
    ensures Lookup(ApplyDelta(base, TokenDelta(tok)), REFRESH_TOKEN)
      == if tok.refresh == "" then Lookup(base, REFRESH_TOKEN) else tok.refresh
    ensures tok.refresh == "" && REFRESH_TOKEN in base ==> REFRESH_TOKEN in ApplyDelta(base, TokenDelta(tok))
  {
    assert ACCESS_TOKEN[0] != REFRESH_TOKEN[0];
    DeltaMeaning(base, TokenDelta(tok), ACCESS_TOKEN);
    DeltaMeaning(base, TokenDelta(tok), REFRESH_TOKEN);
  }

  /** Deltas on different keys can be applied in either order. */
  lemma DisjointDeltasCommute(base: Extra, a: Delta, b: Delta)
    requires a.Keys !! b.Keys
    ensures ApplyDelta(ApplyDelta(base, a), b) == ApplyDelta(ApplyDelta(base, b), a)
  {
    forall k ensures k in ApplyDelta(ApplyDelta(base, a), b) <==> k in ApplyDelta(ApplyDelta(base, b), a) {
      DeltaMeaning(ApplyDelta(base, a), b, k);
      DeltaMeaning(ApplyDelta(base, b), a, k);
    }
  }

  /** `out` is base with the input's changes outside `left`. */
  ghost predicate Merged(base: Extra, input: map<string, string>, left: set<string>, out: Extra) {
    forall k :: if k in input && k !in left
      then (k in out <==> input[k] != "") && (k in out ==> out[k] == input[k])
      else (k in out <==> k in base) && (k in out ==> out[k] == base[k])
  }

  lemma MergedAll(base: Extra, input: map<string, string>, out: Extra)
    requires Merged(base, input, {}, out)
    ensures out == ApplyDelta(base, InputDelta(input))
  {
    var all := ApplyDelta(base, InputDelta(input));
    forall k ensures (k in out <==> k in all) && (k in out ==> out[k] == all[k]) {
      DeltaMeaning(base, InputDelta(input), k);
    }
  }

  lemma MergedOne(base: Extra, input: map<string, string>, left: set<string>, out: Extra, key: string)
    requires Merged(base, input, left, out) && key in left && key in input
    ensures Merged(base, input, left - {key}, if input[key] == "" then out - {key} else out[key := input[key]])
  {
  }

  /** Merges an operator's input into a copy of the stored map. */
  method MergeExtra(base: Extra, input: map<string, string>) returns (out: Extra)
    ensures out == ApplyDelta(base, InputDelta(input))
    ensures forall k :: if k in input then (k in out <==> input[k] != "") && (k in out ==> out[k] == input[k])
                        else (k in out <==> k in base) && (k in out ==> out[k] == base[k])
  {
    out := base;
    var left := input.Keys;
    while left != {}
      invariant left <= input.Keys
      invariant Merged(base, input, left, out)
      decreases |left|
    {
      var k :| k in left;
      MergedOne(base, input, left, out, k);
      left := left - {k};
      if input[k] == "" {
        out := out - {k};
        continue;
      }
      out := out[k := input[k]];
    }
    MergedAll(base, input, out);
  }

  /** The row of one credential, as far as these writers see it. */
  class Credential {
    var extra: Extra
    var expiresAt: Option<int>
  }

  /** Where a write sequence stops. */
  datatype Fault = NoFault | OpenFails | DecodeFails | UpsertFails | StampFails

  lemma WritesTokenKeys(base: Extra, tok: Token)
    ensures var m := base[ACCESS_TOKEN := tok.access];
      ApplyDelta(base, TokenDelta(tok)) == if tok.refresh == "" then m else m[REFRESH_TOKEN := tok.refresh]
  {
    assert ACCESS_TOKEN[0] != REFRESH_TOKEN[0];
    var m := base[ACCESS_TOKEN := tok.access];
    var all := ApplyDelta(base, TokenDelta(tok));
    var want := if tok.refresh == "" then m else m[REFRESH_TOKEN := tok.refresh];
    forall k ensures (k in all <==> k in want) && (k in all ==> all[k] == want[k]) {
      DeltaMeaning(base, TokenDelta(tok), k);
    }
  }

  /** Stores a new token, then its expiry; a failure in between leaves the new
      token under the old expiry. */
  method PersistIsolarToken(cred: Credential, tok: Token, fault: Fault) returns (ok: bool)
    modifies cred
    ensures ok <==> fault.NoFault?
    ensures ok ==> cred.expiresAt == Some(tok.expiresAt)
    ensures !ok ==> cred.expiresAt == old(cred.expiresAt)
    ensures cred.extra
      == if ok || fault.StampFails? then ApplyDelta(old(cred.extra), TokenDelta(tok)) else old(cred.extra)
  {
    if fault.OpenFails? || fault.DecodeFails? {
      return false;
    }
    WritesTokenKeys(cred.extra, tok);
    var m := cred.extra;
    m := m[ACCESS_TOKEN := tok.access];
    if tok.refresh != "" {
      m := m[REFRESH_TOKEN := tok.refresh];
    }
    if fault.UpsertFails? {
      return false;
    }
    cred.extra := m;
    if fault.StampFails? {
      return false;
    }
    cred.expiresAt := Some(tok.expiresAt);
    return true;
  }

  /** The stored access token, when the expiry leaves it longer than the window; the
      secret is opened and decoded only then. */
  method CurrentAccessToken(cred: Credential, now: int, opens: bool) returns (ok: bool, access: Option<string>)
    ensures var lasts := cred.expiresAt.Some? && cred.expiresAt.value > now + 5 * MINUTE;
      var has := ACCESS_TOKEN in cred.extra && cred.extra[ACCESS_TOKEN] != "";
      && (ok <==> (lasts ==> opens))
      && (access.Some? <==> lasts && opens && has)
      && (access.Some? ==> access.value == cred.extra[ACCESS_TOKEN])
  {
    if cred.expiresAt.None? || !(cred.expiresAt.value > now + REFRESH_WINDOW) {
      return true, None;
    }
    if !opens {
      return false, None;
    }
    if ACCESS_TOKEN !in cred.extra || cred.extra[ACCESS_TOKEN] == "" {
      return true, None;
    }
    return true, Some(cred.extra[ACCESS_TOKEN]);
  }

  /** The calls before the provider's that can fail: opening the secret without the
      lock, the lock, reading the row again, opening it under the lock, and building
      the credentials. */
  datatype Trouble = Trouble(open: bool, lock: bool, reread: bool, reopen: bool, credentials: bool)

  /** One caller alone: a fresh token is handed out untouched, a stale one is
      replaced by what the provider answers to the stored refresh token. */
  method IsolarAccessToken(cred: Credential, now: int, provider: string -> Option<Token>, trouble: Trouble, fault: Fault)
    returns (access: Option<string>)
    modifies cred
    ensures var lasts := old(cred.expiresAt.Some? && cred.expiresAt.value > now + 5 * MINUTE);
      var has := old(ACCESS_TOKEN in cred.extra && cred.extra[ACCESS_TOKEN] != "");
      var stops := trouble.lock || trouble.reread || trouble.credentials || (lasts && (trouble.open || trouble.reopen));
      var reply := provider(old(if REFRESH_TOKEN in cred.extra then cred.extra[REFRESH_TOKEN] else ""));
      if lasts && has then
        unchanged(cred) && access == if trouble.open then None else Some(old(cred.extra)[ACCESS_TOKEN])
      else if stops || reply.None? then access == None && unchanged(cred)
      else
        && access == (if fault.NoFault? then Some(reply.value.access) else None)
        && cred.extra == (if fault.NoFault? || fault.StampFails? then ApplyDelta(old(cred.extra), TokenDelta(reply.value))
                          else old(cred.extra))
        && cred.expiresAt == (if fault.NoFault? then Some(reply.value.expiresAt) else old(cred.expiresAt))
  {
    var ok;
    ok, access := CurrentAccessToken(cred, now, !trouble.open);
    if !ok || access.Some? {
      return;
    }
    if trouble.lock || trouble.reread {
      return None;
    }
    ok, access := CurrentAccessToken(cred, now, !trouble.reopen);
    if !ok || access.Some? {
      return;
    }
    if trouble.credentials {
      return None;
    }
    var reply := provider(Lookup(cred.extra, REFRESH_TOKEN));
    if reply.None? {
      return None;
    }
    ok := PersistIsolarToken(cred, reply.value, fault);
    return if ok then Some(reply.value.access) else None;
  }
}
