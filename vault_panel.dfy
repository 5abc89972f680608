/**
 * The local vault panel (frontend/src/components/VaultPanel.tsx): a list of credentials kept in the
 * browser, loaded once from storage, extended by the add form and optionally pushed to the cloud.
 * The clock is a parameter (`now` for `Date.now()`, `createdAt` for the ISO timestamp) and the
 * cloud handler's outcome is an input.
 */
module VaultPanel {
  import opened Wrappers
  import opened Text

  /** A stored credential; `synced` is absent until a cloud save succeeds. */
  datatype LocalCredential = LocalCredential(
    id: string,
    site: string,  // the source's `label` field, renamed because `label` is a Dafny keyword
    username: string,
    password: string,
    createdAt: string,
    synced: Option<bool>)

  /** What the storage read and `JSON.parse` yield. */
  datatype Stored =
    | Missing                                   // no item, or an empty string
    | Unparsable                                // `JSON.parse` throws
    | NotArray                                  // parses, but not to an array
    | Credentials(list: seq<LocalCredential>)   // parses to an array

  /** The `onCloudSave` prop: absent, or present and resolving or rejecting. */
  datatype CloudSave = NoHandler | Resolves | Rejects

  /** The add form's guard: none of the three fields may trim to the empty string. */
  function Acceptable(site: string, username: string, password: string): (b: bool)
    ensures b <==> !AllWhiteSpace(site) && !AllWhiteSpace(username) && !AllWhiteSpace(password)
  {
    Trim(site) != "" && Trim(username) != "" && Trim(password) != ""
  }

  /** The id of an entry: the trimmed site label, a hyphen, then the millisecond clock. */
  function NewId(trimmedSite: string, now: nat): (id: string)
    ensures |id| > |trimmedSite| + 1 && id[|trimmedSite|] == '-'
  {
    trimmedSite + "-" + Decimal(now)
  }

  /**
   * Ids are unambiguous: the timestamp has no hyphen, so the last hyphen of an id separates the site label
   * from the clock, and two ids are equal only for the same site and the same millisecond.
   */
  lemma NewIdInjective(a: string, n1: nat, b: string, n2: nat)
    requires NewId(a, n1) == NewId(b, n2)
    ensures a == b && n1 == n2
  {
    var s := NewId(a, n1);
    HyphenOnlyAfterSite(a, n1);
    HyphenOnlyAfterSite(b, n2);
    assert |a| == |b|;
    assert a == s[..|a|] == b;
    assert Decimal(n1) == s[|a| + 1..] == Decimal(n2);
  }

  /** In an id, the hyphen right after the site label is the last one. */
  lemma HyphenOnlyAfterSite(a: string, n: nat)
    ensures NewId(a, n)[|a|] == '-'
    ensures forall k :: |a| < k < |NewId(a, n)| ==> NewId(a, n)[k] != '-'
  {
    var s, d := NewId(a, n), Decimal(n);
    forall k | |a| < k < |s|
      ensures s[k] != '-'
    {
      assert s[k] == d[k - |a| - 1];
    }
  }

  /** The entry `handleAdd` builds: trimmed site and username, the password exactly as typed. */
  function NewCredential(site: string, username: string, password: string, now: nat, createdAt: string): (c: LocalCredential)
    ensures c.site == Trim(site) && c.username == Trim(username) && c.password == password
    ensures c.id == NewId(Trim(site), now) && c.createdAt == createdAt && c.synced == None
  {
    LocalCredential(NewId(Trim(site), now), Trim(site), Trim(username), password, createdAt, None)
  }

  /** `prev.map(c => c.id === id ? {...c, synced: true} : c)`. */
  function MarkSynced(list: seq<LocalCredential>, id: string): (r: seq<LocalCredential>)
    ensures |r| == |list|
    ensures forall i :: 0 <= i < |list| && list[i].id == id ==> r[i] == list[i].(synced := Some(true))
    ensures forall i :: 0 <= i < |list| && list[i].id != id ==> r[i] == list[i]
  {
    if list == [] then []
    else [if list[0].id == id then list[0].(synced := Some(true)) else list[0]] + MarkSynced(list[1..], id)
  }

  /** Marking twice is marking once. */
  lemma MarkSyncedIdempotent(list: seq<LocalCredential>, id: string)
    ensures MarkSynced(MarkSynced(list, id), id) == MarkSynced(list, id)
  {
    var once := MarkSynced(list, id);
    var twice := MarkSynced(once, id);
    assert |twice| == |once|;
    forall i | 0 <= i < |once|
      ensures twice[i] == once[i]
    {
      assert once[i].id == list[i].id;
    }
  }

  /** Marking after a prepend of an entry whose id no older entry has touches only that entry. */
  lemma MarkSyncedPrependFresh(c: LocalCredential, prev: seq<LocalCredential>)
    requires forall i :: 0 <= i < |prev| ==> prev[i].id != c.id
    ensures MarkSynced([c] + prev, c.id) == [c.(synced := Some(true))] + prev
  {
    var list := [c] + prev;
    var r := MarkSynced(list, c.id);
    var t := [c.(synced := Some(true))] + prev;
    assert |r| == |t|;
    forall i | 0 <= i < |r|
      ensures r[i] == t[i]
    {
      if i == 0 {
        assert list[0] == c;
      } else {
        assert list[i] == prev[i - 1] && t[i] == prev[i - 1];
        assert list[i].id != c.id;
      }
    }
  }

  /** The panel's state. */
  class Panel {
    var site: string  // the source's `label` state
    var accountUsername: string
    var accountPassword: string
    var credentials: seq<LocalCredential>
    var isSaving: bool

    constructor ()
      ensures site == "" && accountUsername == "" && accountPassword == ""
      ensures credentials == [] && !isSaving
    {
      site := "";
      accountUsername := "";
      accountPassword := "";
      credentials := [];
      isSaving := false;
    }

    /** The mount effect: the stored list replaces the current one only when it parses to an array. */
    method Load(stored: Stored)
      modifies this`credentials
      ensures stored.Credentials? ==> credentials == stored.list
      ensures !stored.Credentials? ==> credentials == old(credentials)
    {
      match stored
      case Credentials(list) => credentials := list;
      case _ =>
    }

    /**
     * `handleAdd`: a blank field leaves everything as it was. Otherwise the new entry is prepended,
     * handed to the cloud handler if there is one and marked synced when that resolves, the form is
     * cleared and `isSaving` ends false. `call` is the arguments passed to `onCloudSave`.
     */
    method HandleAdd(now: nat, createdAt: string, cloud: CloudSave) returns (call: Option<(string, string, string)>)
      modifies this
      ensures !Acceptable(old(site), old(accountUsername), old(accountPassword)) ==>
                && call == None && site == old(site) && accountUsername == old(accountUsername)
                && accountPassword == old(accountPassword) && credentials == old(credentials) && isSaving == old(isSaving)
      ensures Acceptable(old(site), old(accountUsername), old(accountPassword)) ==>
                var c := NewCredential(old(site), old(accountUsername), old(accountPassword), now, createdAt);
                && call == (if cloud == NoHandler then None else Some((c.id, c.username, c.password)))
                && credentials == (if cloud == Resolves then MarkSynced([c] + old(credentials), c.id) else [c] + old(credentials))
                && site == "" && accountUsername == "" && accountPassword == "" && !isSaving
    {
      if !Acceptable(site, accountUsername, accountPassword) {
        return None;
      }
      var c := NewCredential(site, accountUsername, accountPassword, now, createdAt);
      call := Add(c, cloud);
    }

    /** The accepted branch of `handleAdd`, once the entry `c` is built. */
    method Add(c: LocalCredential, cloud: CloudSave) returns (call: Option<(string, string, string)>)
      modifies this
      ensures call == (if cloud == NoHandler then None else Some((c.id, c.username, c.password)))
      ensures credentials == (if cloud == Resolves then MarkSynced([c] + old(credentials), c.id) else [c] + old(credentials))
      ensures site == "" && accountUsername == "" && accountPassword == "" && !isSaving
    {
      isSaving := true;
      credentials := [c] + credentials;
      call := None;
      if cloud != NoHandler {
        call := Some((c.id, c.username, c.password));
        if cloud == Resolves {
          credentials := MarkSynced(credentials, c.id);
        }
      }
      site, accountUsername, accountPassword := "", "", "";
      isSaving := false;
    }
  }
}
