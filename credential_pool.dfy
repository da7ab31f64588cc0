/*
 * The maintenance script backend/add_valid_token.py over the pool of
 * HuggingFace credentials: `add_token` inserts one credential owned by the
 * first administrator, `delete_invalid_tokens` purges known placeholder
 * values, and the script runs the purge before the insert. Console output
 * and the command-line handling are not modelled.
 */
module CredentialPool {
  import opened Common

  /** A `users` row as the script reads it. */
  datatype UserRow = UserRow(id: nat, username: string, role: string)

  /** One pool row: the credential value, its label, whether it is active and who added it. */
  datatype PoolEntry = PoolEntry(id: nat, token: string, name: string, isActive: bool, createdBy: nat)

  /**
   * `User.objects.filter(role='admin').first()`. `users` is the table in its
   * default ordering (newest `created_at` first), so this is the newest admin.
   */
  function FirstAdmin(users: seq<UserRow>): (r: Option<UserRow>)
    ensures r.None? <==> forall i | 0 <= i < |users| :: users[i].role != "admin"
    ensures r.Some? ==> r.value in users && r.value.role == "admin"
    ensures r.Some? ==> exists i | 0 <= i < |users| ::
      users[i] == r.value && forall j | 0 <= j < i :: users[j].role != "admin"
  {
    if users == [] then None
    else if users[0].role == "admin" then Some(users[0])
    else
      var rest := FirstAdmin(users[1..]);
      if rest.Some? then
        var i :| 0 <= i < |users[1..]| && users[1..][i] == rest.value &&
          forall j | 0 <= j < i :: users[1..][j].role != "admin";
        assert users[i + 1] == rest.value;
        assert forall j | 0 <= j < i + 1 :: users[j].role != "admin" by {
          forall j | 0 <= j < i + 1 ensures users[j].role != "admin" {
            if j > 0 { assert users[j] == users[1..][j - 1]; }
          }
        }
        rest
      else
        assert forall i | 0 <= i < |users| :: users[i].role != "admin" by {
          forall i | 0 <= i < |users| ensures users[i].role != "admin" {
            if i > 0 { assert users[i] == users[1..][i - 1]; }
          }
        }
        None
  }

  predicate HasToken(entries: seq<PoolEntry>, value: string)
  {
    exists i | 0 <= i < |entries| :: entries[i].token == value
  }

  /** The values `delete_invalid_tokens` treats as placeholders. */
  const Placeholders: set<string> := {"a", "aa", "test", "your-huggingface-token-here"}

  predicate IsPlaceholder(e: PoolEntry)
  {
    e.token in Placeholders
  }

  /** How many pool rows hold a placeholder value: `invalid_tokens.count()`. */
  function PlaceholderCount(entries: seq<PoolEntry>): nat
  {
    if entries == [] then 0
    else PlaceholderCount(entries[..|entries| - 1]) + (if IsPlaceholder(entries[|entries| - 1]) then 1 else 0)
  }

  /** The pool after the placeholder rows are deleted: every other row, in order. */
  function WithoutPlaceholders(entries: seq<PoolEntry>): (r: seq<PoolEntry>)
    ensures |r| + PlaceholderCount(entries) == |entries|
    ensures forall i | 0 <= i < |r| :: !IsPlaceholder(r[i]) && r[i] in entries
    ensures forall i | 0 <= i < |entries| && !IsPlaceholder(entries[i]) :: entries[i] in r
  {
    if entries == [] then []
    else
      var init := entries[..|entries| - 1];
      var last := entries[|entries| - 1];
      var kept := WithoutPlaceholders(init);
      assert forall i | 0 <= i < |init| :: init[i] == entries[i];
      if IsPlaceholder(last) then kept else kept + [last]
  }

  /** Purging twice deletes nothing the second time. */
  lemma {:induction false} PurgeIdempotent(entries: seq<PoolEntry>)
    ensures WithoutPlaceholders(WithoutPlaceholders(entries)) == WithoutPlaceholders(entries)
    ensures PlaceholderCount(WithoutPlaceholders(entries)) == 0
  {
    var once := WithoutPlaceholders(entries);
    NoPlaceholdersKept(once);
  }

  /** A pool without placeholder rows is left as it is by the purge. */
  lemma {:induction false} NoPlaceholdersKept(entries: seq<PoolEntry>)
    requires forall i | 0 <= i < |entries| :: !IsPlaceholder(entries[i])
    ensures WithoutPlaceholders(entries) == entries
    ensures PlaceholderCount(entries) == 0
  {
    if entries != [] {
      var init, last := entries[..|entries| - 1], entries[|entries| - 1];
      assert entries == init + [last];
      assert forall i | 0 <= i < |init| :: init[i] == entries[i];
      NoPlaceholdersKept(init);
      assert !IsPlaceholder(last);
      assert WithoutPlaceholders(entries) == WithoutPlaceholders(init) + [last];
    }
  }

  /** A pool counting no placeholder rows is left as it is by the purge. */
  lemma {:induction false} ZeroCountKept(entries: seq<PoolEntry>)
    requires PlaceholderCount(entries) == 0
    ensures WithoutPlaceholders(entries) == entries
  {
    if entries != [] {
      var init, last := entries[..|entries| - 1], entries[|entries| - 1];
      assert entries == init + [last];
      ZeroCountKept(init);
      assert !IsPlaceholder(last);
      assert WithoutPlaceholders(entries) == WithoutPlaceholders(init) + [last];
    }
  }

  /** After the purge no placeholder value counts as a duplicate. */
  lemma {:induction false} PlaceholderNotDuplicateAfterPurge(entries: seq<PoolEntry>, value: string)
    requires value in Placeholders
    ensures !HasToken(WithoutPlaceholders(entries), value)
  {
  }

  class Pool {
    var entries: seq<PoolEntry>
    var nextId: nat

    constructor (initial: seq<PoolEntry>, firstFreeId: nat)
      ensures entries == initial && nextId == firstFreeId
    {
      entries := initial;
      nextId := firstFreeId;
    }

    /**
     * `add_token(token_value, token_name)`: refuses when there is no
     * administrator, then when the value is already pooled; otherwise adds
     * one active row created by the first administrator.
     */
    method AddToken(users: seq<UserRow>, value: string, name: string) returns (added: bool)
      modifies this
      ensures added <==> FirstAdmin(users).Some? && !HasToken(old(entries), value)
      ensures !added ==> entries == old(entries) && nextId == old(nextId)
      ensures added ==>
        entries == old(entries) + [PoolEntry(old(nextId), value, name, true, FirstAdmin(users).value.id)] &&
        nextId == old(nextId) + 1
    {
      var admin := FirstAdmin(users);
      if admin.None? {
        return false;
      }
      if HasToken(entries, value) {
        return false;
      }
      entries := entries + [PoolEntry(nextId, value, name, true, admin.value.id)];
      nextId := nextId + 1;
      return true;
    }

    /** `delete_invalid_tokens`: deletes every placeholder row and reports how many there were. */
    method DeleteInvalidTokens() returns (count: nat)
      modifies this
      ensures entries == WithoutPlaceholders(old(entries))
      ensures count == PlaceholderCount(old(entries))
      ensures nextId == old(nextId)
    {
      count := PlaceholderCount(entries);
      if count > 0 {
        entries := WithoutPlaceholders(entries);
      } else {
        ZeroCountKept(entries);
      }
    }

    /** The script body: purge first, then add, so the duplicate check sees the purged pool. */
    method PurgeThenAdd(users: seq<UserRow>, value: string, name: string) returns (added: bool)
      modifies this
      ensures added <==> FirstAdmin(users).Some? && !HasToken(WithoutPlaceholders(old(entries)), value)
      ensures !added ==> entries == WithoutPlaceholders(old(entries))
      ensures added ==>
        entries == WithoutPlaceholders(old(entries)) + [PoolEntry(old(nextId), value, name, true, FirstAdmin(users).value.id)]
    {
      var _ := DeleteInvalidTokens();
      added := AddToken(users, value, name);
    }
  }
}
