/** The REALITY settings: ensureReality and patchSettings in internal/api/server.go over
    internal/reality/keys.go. A table holds "" for a key that was never set. */
module Settings {
  import opened Entitlement
  import opened Desired
  import opened Text

  const DEFAULT_DEST := "www.cloudflare.com:443"
  const DEFAULT_SNI := "www.cloudflare.com"

  function NonEmpty(s: string, otherwise: string): string {
    if s == "" then otherwise else s
  }

  /** The stored keys suffice for an apply, as settingValue reads them. */
  predicate Ready(table: RealityKeys) {
    !Blank(table.privateKey) && !Blank(table.publicKey) && !Blank(table.shortId)
  }

  /** What a document carries of stored keys: every value trimmed, missing names filled. */
  function Carried(table: RealityKeys): RealityKeys {
    RealityKeys(TrimSpace(table.privateKey), TrimSpace(table.publicKey), TrimSpace(table.shortId),
                NonEmpty(TrimSpace(table.dest), DEFAULT_DEST), NonEmpty(TrimSpace(table.sni), DEFAULT_SNI))
  }

  predicate IsKey(s: string) {
    s != "" && IsTrimmed(s)
  }

  /** What reality.Generate returns: base64 and hexadecimal text, and the default names. */
  predicate Generated(k: RealityKeys) {
    IsKey(k.privateKey) && IsKey(k.publicKey) && IsKey(k.shortId) && k.dest == DEFAULT_DEST && k.sni == DEFAULT_SNI
  }

  /** The table ensureReality leaves behind. */
  function Ensured(table: RealityKeys, made: RealityKeys): RealityKeys {
    if Ready(table) then table
    else
      made.(dest := NonEmpty(TrimSpace(table.dest), DEFAULT_DEST), sni := NonEmpty(TrimSpace(table.sni), DEFAULT_SNI))
  }

  function TrimPrefix(s: string, prefix: string): string {
    if prefix <= s then s[|prefix|..] else s
  }

  function TrimSuffix(s: string, suffix: string): string {
    if |suffix| <= |s| && s[|s| - |suffix|..] == suffix then s[..|s| - |suffix|] else s
  }

  /** reality.NormalizeSNI; hostOf is the host net.SplitHostPort finds, or the text itself. */
  function NormalizeSNI(raw: string, hostOf: string -> string): Option<string> {
    var bare := TrimSuffix(TrimPrefix(TrimPrefix(TrimSpace(raw), "https://"), "http://"), "/");
    var host := Clean(hostOf(bare));
    if host == "" || '/' in host || ' ' in host || ':' in host then None else Some(host)
  }

  /** The table after a settings patch. dest is already normalised; a refused name changes nothing. */
  function Patched(table: RealityKeys, dest: Option<string>, sni: Option<string>,
                   hostOf: string -> string): RealityKeys {
    if dest.None? && sni.None? then table
    else if sni.Some? && NormalizeSNI(sni.value, hostOf).None? then table
    else
      table.(dest := if dest.Some? then dest.value else NonEmpty(TrimSpace(table.dest), DEFAULT_DEST),
             sni := if sni.Some? then NormalizeSNI(sni.value, hostOf).value
                    else NonEmpty(TrimSpace(table.sni), DEFAULT_SNI))
  }

  /** All three keys are there once trimmed. */
  predicate KeysSet(t: RealityKeys) {
    TrimSpace(t.privateKey) != "" && TrimSpace(t.publicKey) != "" && TrimSpace(t.shortId) != ""
  }

  predicate SameKeys(t: RealityKeys, u: RealityKeys) {
    t.privateKey == u.privateKey && t.publicKey == u.publicKey && t.shortId == u.shortId
  }

  /** The names of u are those of t, trimmed, where t has them, and otherwise those of made. */
  predicate KeptOr(t: RealityKeys, u: RealityKeys, made: RealityKeys) {
    u.dest == (if TrimSpace(t.dest) != "" then TrimSpace(t.dest) else made.dest)
    && u.sni == if TrimSpace(t.sni) != "" then TrimSpace(t.sni) else made.sni
  }

  class SettingsTable {
    var table: RealityKeys

    constructor ()
      ensures table == EMPTY
    {
      table := EMPTY;
    }

    function Value(s: string): string {
      TrimSpace(s)
    }

    /** ensureReality; made is what reality.Generate would return. Keys that are all set are kept, and
        otherwise all three are replaced, and a name that was set is kept either way. */
    method EnsureReality(made: RealityKeys) returns (k: RealityKeys)
      requires Generated(made)
      modifies this
      ensures table == Ensured(old(table), made)
      ensures Ready(table) && k == Carried(table)
      ensures KeysSet(old(table)) ==> table == old(table)
      ensures !KeysSet(old(table)) ==> SameKeys(table, made) && KeptOr(old(table), table, made)
      ensures SameKeys(k, table.(privateKey := TrimSpace(table.privateKey), publicKey := TrimSpace(table.publicKey),
                                 shortId := TrimSpace(table.shortId)))
      ensures KeptOr(table, k, made)
    {
      var pub, priv, sid := Value(table.publicKey), Value(table.privateKey), Value(table.shortId);
      var dest, sni := Value(table.dest), Value(table.sni);
      if pub != "" && priv != "" && sid != "" {
        k := RealityKeys(priv, pub, sid, dest, sni);
      } else {
        k := made;
        if dest != "" {
          k := k.(dest := dest);
        }
        if sni != "" {
          k := k.(sni := sni);
        }
        table := k;
        EnsuredCarriesItself(old(table), made);
      }
      if k.dest == "" {
        k := k.(dest := DEFAULT_DEST);
      }
      if k.sni == "" {
        k := k.(sni := DEFAULT_SNI);
      }
    }

    method PatchSettings(dest: Option<string>, sni: Option<string>, hostOf: string -> string) returns (ok: bool)
      modifies this
      ensures table == Patched(old(table), dest, sni, hostOf)
      ensures SameKeys(table, old(table)) && (!ok ==> table == old(table))
      ensures ok && dest.Some? ==> table.dest == dest.value
      ensures ok && sni.Some? ==> Some(table.sni) == NormalizeSNI(sni.value, hostOf)
      ensures ok && dest.None? && TrimSpace(old(table).dest) != "" ==> table.dest == TrimSpace(old(table).dest)
      ensures ok && sni.None? && TrimSpace(old(table).sni) != "" ==> table.sni == TrimSpace(old(table).sni)
      ensures ok && dest.None? && TrimSpace(old(table).dest) == "" ==> table.dest == "www.cloudflare.com:443"
      ensures ok && sni.None? && TrimSpace(old(table).sni) == "" ==> table.sni == "www.cloudflare.com"
      ensures ok <==> (dest.Some? || sni.Some?) && (sni.Some? ==> NormalizeSNI(sni.value, hostOf).Some?)
    {
      if dest.None? && sni.None? {
        return false;
      }
      var newDest, newSni := NonEmpty(Value(table.dest), DEFAULT_DEST), NonEmpty(Value(table.sni), DEFAULT_SNI);
      if dest.Some? {
        newDest := dest.value;
      }
      if sni.Some? {
        var got := NormalizeSNI(sni.value, hostOf);
        if got.None? {
          return false;
        }
        newSni := got.value;
      }
      table := table.(dest := newDest, sni := newSni);
      ok := true;
    }
  }

  const EMPTY := RealityKeys("", "", "", "", "")

  lemma DefaultsAreKeys()
    ensures IsKey(DEFAULT_DEST) && IsKey(DEFAULT_SNI)
  {
    assert !IsSpace(DEFAULT_DEST[0]) && !IsSpace(DEFAULT_DEST[|DEFAULT_DEST| - 1]);
    assert !IsSpace(DEFAULT_SNI[0]) && !IsSpace(DEFAULT_SNI[|DEFAULT_SNI| - 1]);
  }

  lemma TrimmedOrDefault(s: string, otherwise: string)
    requires IsKey(otherwise)
    ensures IsKey(NonEmpty(TrimSpace(s), otherwise))
  {
    TrimSpaceTrims(s);
  }

  lemma KeyTrimsToItself(s: string)
    requires IsKey(s)
    ensures TrimSpace(s) == s && !Blank(s)
  {
    TrimSpaceTrims(s);
  }

  /** New keys are stored as the document carries them. */
  lemma EnsuredCarriesItself(table: RealityKeys, made: RealityKeys)
    requires Generated(made) && !Ready(table)
    ensures Ready(Ensured(table, made)) && Carried(Ensured(table, made)) == Ensured(table, made)
  {
    DefaultsAreKeys();
    TrimmedOrDefault(table.dest, DEFAULT_DEST);
    TrimmedOrDefault(table.sni, DEFAULT_SNI);
    var t := Ensured(table, made);
    KeyTrimsToItself(t.privateKey);
    KeyTrimsToItself(t.publicKey);
    KeyTrimsToItself(t.shortId);
    KeyTrimsToItself(t.dest);
    KeyTrimsToItself(t.sni);
  }

  // Whole runs of the two handlers.

  datatype Update = Ensure(made: RealityKeys) | Patch(dest: Option<string>, sni: Option<string>)

  function Run(events: seq<Update>, hostOf: string -> string): RealityKeys {
    if events == [] then EMPTY
    else
      var before, e := Run(events[..|events| - 1], hostOf), events[|events| - 1];
      match e
      case Ensure(made) => Ensured(before, made)
      case Patch(dest, sni) => Patched(before, dest, sni, hostOf)
  }

  /** Once all three keys are set, no later handler changes any of them. */
  lemma {:induction false} SetKeysStay(events: seq<Update>, k: nat, hostOf: string -> string)
    requires k <= |events| && KeysSet(Run(events[..k], hostOf))
    ensures SameKeys(Run(events, hostOf), Run(events[..k], hostOf))
    decreases |events|
  {
    if k == |events| {
      assert events[..k] == events;
    } else {
      var before := events[..|events| - 1];
      assert before[..k] == events[..k];
      SetKeysStay(before, k, hostOf);
    }
  }

  /** What links show of the table: it reads the same trimmed or not. */
  predicate Plain(table: RealityKeys) {
    IsTrimmed(table.sni) && IsTrimmed(table.publicKey) && IsTrimmed(table.shortId)
  }

  /** The handlers only ever store plain values. */
  lemma {:induction false} StoredSettingsArePlain(events: seq<Update>, hostOf: string -> string)
    requires forall i :: 0 <= i < |events| && events[i].Ensure? ==> Generated(events[i].made)
    ensures Plain(Run(events, hostOf))
  {
    if events != [] {
      var before, e := events[..|events| - 1], events[|events| - 1];
      StoredSettingsArePlain(before, hostOf);
      DefaultsAreKeys();
      TrimmedOrDefault(Run(before, hostOf).sni, DEFAULT_SNI);
      if e.Patch? && e.sni.Some? {
        NormalizedIsTrimmed(e.sni.value, hostOf);
      }
    }
  }

  lemma NormalizedIsTrimmed(raw: string, hostOf: string -> string)
    ensures NormalizeSNI(raw, hostOf).Some? ==>
              IsKey(NormalizeSNI(raw, hostOf).value) && BareHost(NormalizeSNI(raw, hostOf).value)
  {
    var bare := TrimSuffix(TrimPrefix(TrimPrefix(TrimSpace(raw), "https://"), "http://"), "/");
    CleanCleans(hostOf(bare));
  }

  /** A bare lower-case host name. */
  predicate BareHost(h: string) {
    h != "" && IsCleanWord(h) && '/' !in h && ' ' !in h && ':' !in h
  }

  lemma TrimPrefixOf(prefix: string, h: string)
    ensures TrimPrefix(prefix + h, prefix) == h
  {
    assert (prefix + h)[|prefix|..] == h && prefix <= prefix + h;
  }

  lemma NoPrefix(prefix: string, s: string, i: nat)
    requires i < |prefix| && (i < |s| ==> prefix[i] != s[i])
    ensures !(prefix <= s) && TrimPrefix(s, prefix) == s
  {
  }

  /** A text that does not contain the colon where the schemes have it. */
  lemma NoScheme(s: string)
    requires (4 < |s| ==> s[4] != ':') && (5 < |s| ==> s[5] != ':')
    ensures TrimPrefix(TrimPrefix(s, "https://"), "http://") == s
  {
    NoPrefix("https://", s, 5);
    NoPrefix("http://", s, 4);
  }

  lemma SlashIsDropped(h: string)
    requires '/' !in h
    ensures TrimSuffix(h, "/") == h && TrimSuffix(h + "/", "/") == h
  {
    assert (h + "/")[..|h|] == h && (h + "/")[|h|..] == "/";
    assert h != "" ==> h[|h| - 1..] == [h[|h| - 1]];
  }

  lemma SchemeIsDropped(h: string)
    requires ':' !in h
    ensures TrimPrefix(TrimPrefix("https://" + h, "https://"), "http://") == h
    ensures TrimPrefix(TrimPrefix("http://" + h, "https://"), "http://") == h
  {
    NoPrefix("https://", "http://" + h, 4);
    TrimPrefixOf("https://", h);
    TrimPrefixOf("http://", h);
    NoScheme(h);
  }

  lemma BareHostTrims(h: string)
    requires BareHost(h)
    ensures TrimSpace(h) == h && TrimSpace(h + "/") == h + "/"
    ensures TrimSpace("https://" + h) == "https://" + h && TrimSpace("http://" + h) == "http://" + h
  {
    TrimSpaceTrims(h);
    TrimSpaceTrims(h + "/");
    TrimSpaceTrims("https://" + h);
    TrimSpaceTrims("http://" + h);
  }

  /** A bare host name without a port is accepted as it is, and with either scheme or a slash at its
      end. */
  lemma NormalizeSNIKeepsHosts(h: string, hostOf: string -> string)
    requires BareHost(h) && hostOf(h) == h
    ensures NormalizeSNI(h, hostOf) == Some(h) && NormalizeSNI(h + "/", hostOf) == Some(h)
    ensures NormalizeSNI("https://" + h, hostOf) == Some(h) && NormalizeSNI("http://" + h, hostOf) == Some(h)
  {
    CleanCleans(h);
    BareHostTrims(h);
    SlashIsDropped(h);
    SchemeIsDropped(h);
    NoScheme(h);
    NoScheme(h + "/");
  }

  /** Links and documents show the same REALITY name, public key and short id if and only if the
      stored values are plain. */
  lemma PlainIffShownAsCarried(table: RealityKeys)
    ensures Carried(table).sni == NonEmpty(table.sni, DEFAULT_SNI) && Carried(table).publicKey == table.publicKey
            && Carried(table).shortId == table.shortId
            <==> Plain(table)
  {
    SameTrimmedIff(table.publicKey);
    SameTrimmedIff(table.shortId);
    SameTrimmedIff(table.sni);
    DefaultsAreKeys();
    KeyTrimsToItself(DEFAULT_SNI);
    if Blank(table.sni) && table.sni != "" {
      assert table.sni != DEFAULT_SNI;
    }
  }

  lemma SameTrimmedIff(s: string)
    ensures TrimSpace(s) == s <==> IsTrimmed(s)
  {
    TrimSpaceTrims(s);
  }
}
