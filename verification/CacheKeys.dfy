/**
  The key families of the cache. The builder's methods are string concatenations; the datatype
  `Key` names the entry a key is meant for, and the lemmas show that the strings lose nothing:
  no two entries share a key, and a wildcard pattern covers exactly one family.
 */
module CacheKeys {
  import opened Prelude

  datatype CacheKeyBuilder = CacheKeyBuilder(prefix: string) {
    function Task(id: string): string { prefix + ":task:" + id }

    function User(id: string): string { prefix + ":user:" + id }

    function UserByEmail(email: string): string { prefix + ":user:email:" + email }

    function TaskList(filterHash: string): string { prefix + ":tasks:list:" + filterHash }

    function Session(sessionId: string): string { prefix + ":session:" + sessionId }

    function TokenBlacklist(tokenId: string): string { prefix + ":token:blacklist:" + tokenId }

    function UserSessions(userId: string): string { prefix + ":session:" + userId + ":*" }

    function UserSession(userId: string, tokenId: string): string { prefix + ":session:" + userId + ":" + tokenId }

    function UserList(filterHash: string): string { prefix + ":users:list:" + filterHash }
  }

  /** What an entry is about. */
  datatype Key =
    | TaskKey(taskId: Uuid)
    | UserKey(id: Uuid)
    | EmailKey(email: string)
    | TaskListKey(taskHash: string)
    | UserListKey(userHash: string)
    | SessionKey(userId: Uuid, tokenId: Uuid)
    | BlacklistKey(revokedId: Uuid)

  function Render(b: CacheKeyBuilder, k: Key): string {
    match k
    case TaskKey(id) => b.Task(id.text)
    case UserKey(id) => b.User(id.text)
    case EmailKey(email) => b.UserByEmail(email)
    case TaskListKey(hash) => b.TaskList(hash)
    case UserListKey(hash) => b.UserList(hash)
    case SessionKey(u, t) => b.UserSession(u.text, t.text)
    case BlacklistKey(t) => b.TokenBlacklist(t.text)
  }

  /** A trailing star is dropped; anything else is used whole. */
  function PatternPrefix(pattern: string): string {
    if |pattern| > 0 && pattern[|pattern| - 1] == '*' then pattern[..|pattern| - 1] else pattern
  }

  predicate Covers(pattern: string, key: string) {
    var prefix := PatternPrefix(pattern);
    |key| >= |prefix| && key[..|prefix|] == prefix
  }

  // ---- The text after the prefix decides the family ----

  /** The part of a key after the builder's prefix. */
  function Suffix(k: Key): string {
    match k
    case TaskKey(id) => ":task:" + id.text
    case UserKey(id) => ":user:" + id.text
    case EmailKey(email) => ":user:email:" + email
    case TaskListKey(hash) => ":tasks:list:" + hash
    case UserListKey(hash) => ":users:list:" + hash
    case SessionKey(u, t) => ":session:" + u.text + ":" + t.text
    case BlacklistKey(t) => ":token:blacklist:" + t.text
  }

  lemma RenderIsPrefixAndSuffix(b: CacheKeyBuilder, k: Key)
    ensures Render(b, k) == b.prefix + Suffix(k)
  {
    match k
    case SessionKey(u, t) =>
      assert b.prefix + ":session:" + u.text + ":" + t.text == b.prefix + (":session:" + u.text + ":" + t.text);
    case TaskKey(_) =>
    case UserKey(_) =>
    case EmailKey(_) =>
    case TaskListKey(_) =>
    case UserListKey(_) =>
    case BlacklistKey(_) =>
  }

  /** Seven characters at fixed places tell the families apart. */
  function Family(s: string): nat
    requires |s| >= 9
  {
    if s[1] == 's' then 0
    else if s[1] == 't' && s[2] == 'o' then 1
    else if s[1] == 't' && s[5] == ':' then 2
    else if s[1] == 't' then 3
    else if s[5] == 's' then 4
    else if s[7] == 'm' then 5
    else 6
  }

  function FamilyOf(k: Key): nat {
    match k
    case SessionKey(_, _) => 0
    case BlacklistKey(_) => 1
    case TaskKey(_) => 2
    case TaskListKey(_) => 3
    case UserListKey(_) => 4
    case EmailKey(_) => 5
    case UserKey(_) => 6
  }

  lemma SuffixFamily(k: Key)
    ensures |Suffix(k)| >= 9 && Family(Suffix(k)) == FamilyOf(k)
  {
    match k
    case UserKey(id) =>
      assert Suffix(k)[7] == id.text[1];
      assert id.text[1] in id.text;
    case SessionKey(_, _) =>
    case BlacklistKey(_) =>
    case TaskKey(_) =>
    case TaskListKey(_) =>
    case UserListKey(_) =>
    case EmailKey(_) =>
  }

  lemma SameTail(a: string, x: string, y: string)
    requires a + x == a + y
    ensures x == y
  {
    assert (a + x)[|a|..] == x;
    assert (a + y)[|a|..] == y;
  }

  lemma SuffixInjective(j: Key, k: Key)
    requires Suffix(j) == Suffix(k)
    ensures j == k
  {
    SuffixFamily(j);
    SuffixFamily(k);
    match j
    case TaskKey(id) => SameTail(":task:", id.text, k.taskId.text);
    case UserKey(id) => SameTail(":user:", id.text, k.id.text);
    case EmailKey(email) => SameTail(":user:email:", email, k.email);
    case TaskListKey(hash) => SameTail(":tasks:list:", hash, k.taskHash);
    case UserListKey(hash) => SameTail(":users:list:", hash, k.userHash);
    case BlacklistKey(t) => SameTail(":token:blacklist:", t.text, k.revokedId.text);
    case SessionKey(u, t) =>
      assert u.text == Suffix(j)[9..45] && k.userId.text == Suffix(k)[9..45];
      assert t.text == Suffix(j)[46..] && k.tokenId.text == Suffix(k)[46..];
  }

  /** No key of one family equals a key of another, and within a family keys are unique. */
  lemma RenderInjective(b: CacheKeyBuilder, j: Key, k: Key)
    ensures Render(b, j) == Render(b, k) <==> j == k
  {
    if Render(b, j) == Render(b, k) {
      RenderIsPrefixAndSuffix(b, j);
      RenderIsPrefixAndSuffix(b, k);
      SameTail(b.prefix, Suffix(j), Suffix(k));
      SuffixInjective(j, k);
    }
  }

  lemma CoversSuffix(b: CacheKeyBuilder, pattern: string, head: string, k: Key)
    requires PatternPrefix(pattern) == b.prefix + head
    ensures Covers(pattern, Render(b, k)) <==> head <= Suffix(k)
  {
    RenderIsPrefixAndSuffix(b, k);
    var key, prefix := Render(b, k), b.prefix + head;
    if |key| >= |prefix| {
      assert key[..|prefix|] == b.prefix + Suffix(k)[..|head|];
      if key[..|prefix|] == prefix {
        SameTail(b.prefix, Suffix(k)[..|head|], head);
      }
    }
  }

  function SessionHead(u: Uuid): string {
    ":session:" + u.text + ":"
  }

  lemma SessionHeadOnly(u: Uuid, k: Key)
    requires SessionHead(u) <= Suffix(k)
    ensures k.SessionKey? && k.userId == u
  {
    SuffixFamily(k);
    assert Suffix(k)[1] == SessionHead(u)[1] == 's';
    assert k.SessionKey?;
    assert k.userId.text == Suffix(k)[9..45] == SessionHead(u)[9..45] == u.text;
  }

  lemma SessionHeadOf(k: Key)
    requires k.SessionKey?
    ensures SessionHead(k.userId) <= Suffix(k)
  {
    assert Suffix(k) == SessionHead(k.userId) + k.tokenId.text;
  }

  /** The session pattern of a user covers that user's session keys and no other key of any family. */
  lemma UserSessionsExact(b: CacheKeyBuilder, u: Uuid, k: Key)
    ensures Covers(b.UserSessions(u.text), Render(b, k)) <==> k.SessionKey? && k.userId == u
  {
    SessionPattern(b, u);
    CoversSuffix(b, b.UserSessions(u.text), SessionHead(u), k);
    if SessionHead(u) <= Suffix(k) {
      SessionHeadOnly(u, k);
    }
    if k.SessionKey? {
      SessionHeadOf(k);
    }
  }

  /**
    The key of a session by its ID alone is the key of an entry only if it is a user's session entry, and the
    ID spells out that user and token.
   */
  lemma SessionByIdExact(b: CacheKeyBuilder, sessionId: string, k: Key)
    ensures b.Session(sessionId) == Render(b, k) <==> k.SessionKey? && sessionId == k.userId.text + ":" + k.tokenId.text
  {
    var head := ":session:";
    RenderIsPrefixAndSuffix(b, k);
    SuffixFamily(k);
    assert b.Session(sessionId) == b.prefix + (head + sessionId);
    if b.Session(sessionId) == Render(b, k) {
      SameTail(b.prefix, head + sessionId, Suffix(k));
      assert Suffix(k)[1] == head[1];
    }
    if k.SessionKey? {
      var id := k.userId.text + ":" + k.tokenId.text;
      assert Suffix(k) == head + id;
      if head + sessionId == head + id {
        SameTail(head, sessionId, id);
      }
    }
  }

  lemma SessionPattern(b: CacheKeyBuilder, u: Uuid)
    ensures PatternPrefix(b.UserSessions(u.text)) == b.prefix + SessionHead(u)
  {
    assert b.UserSessions(u.text) == b.prefix + SessionHead(u) + "*";
  }

  /** The user-list pattern covers the user-list family exactly. */
  lemma UserListsExact(b: CacheKeyBuilder, k: Key)
    ensures Covers(b.UserList("") + "*", Render(b, k)) <==> k.UserListKey?
  {
    var head := ":users:list:";
    assert PatternPrefix(b.UserList("") + "*") == b.prefix + head;
    CoversSuffix(b, b.UserList("") + "*", head, k);
    SuffixFamily(k);
    if head <= Suffix(k) {
      assert Suffix(k)[1] == head[1] && Suffix(k)[5] == head[5];
    }
    if k.UserListKey? {
      assert Suffix(k) == head + k.userHash;
    }
  }

  /** The task-list pattern covers the task-list family exactly. */
  lemma TaskListsExact(b: CacheKeyBuilder, k: Key)
    ensures Covers(b.TaskList("") + "*", Render(b, k)) <==> k.TaskListKey?
  {
    var head := ":tasks:list:";
    assert PatternPrefix(b.TaskList("") + "*") == b.prefix + head;
    CoversSuffix(b, b.TaskList("") + "*", head, k);
    SuffixFamily(k);
    if head <= Suffix(k) {
      assert Suffix(k)[1] == head[1] && Suffix(k)[2] == head[2] && Suffix(k)[5] == head[5];
    }
    if k.TaskListKey? {
      assert Suffix(k) == head + k.taskHash;
    }
  }
}
