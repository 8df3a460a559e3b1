/**
  From the name a client gives an attachment to the key its file is stored under: trimming, backslashes
  to slashes, the last path element, then a fixed path with a fresh UUID in front of the name.
 */
module FileNames {
  import opened Prelude
  import opened Text

  /** The white space of Unicode. */
  predicate IsSpace(c: char) {
    var n := c as int;
    || 9 <= n <= 13 || n == 32 || n == 0x85 || n == 0xA0 || n == 0x1680 || 0x2000 <= n <= 0x200A
    || n == 0x2028 || n == 0x2029 || n == 0x202F || n == 0x205F || n == 0x3000
  }

  function TrimLeft(s: string): string {
    if s != "" && IsSpace(s[0]) then TrimLeft(s[1..]) else s
  }

  function TrimRight(s: string): string {
    if s != "" && IsSpace(s[|s| - 1]) then TrimRight(s[..|s| - 1]) else s
  }

  function TrimSpace(s: string): string {
    TrimRight(TrimLeft(s))
  }

  function Slashed(s: string): string {
    if s == "" then "" else [if s[0] == '\\' then '/' else s[0]] + Slashed(s[1..])
  }

  function StripSlashes(s: string): string {
    if s != "" && s[|s| - 1] == '/' then StripSlashes(s[..|s| - 1]) else s
  }

  /** What follows the last slash. */
  function AfterSlash(s: string): string {
    if s == "" || s[|s| - 1] == '/' then "" else AfterSlash(s[..|s| - 1]) + [s[|s| - 1]]
  }

  /** The last element of a path. */
  function Base(p: string): string {
    if p == "" then "."
    else if AfterSlash(StripSlashes(p)) == "" then "/"
    else AfterSlash(StripSlashes(p))
  }

  function SanitizeAttachmentFilename(filename: string): string {
    Base(Slashed(TrimSpace(filename)))
  }

  predicate Acceptable(safe: string) {
    safe != "" && safe != "." && safe != "/"
  }

  const DIRECTORY := "attachments/tasks/"
  const SUBDIRECTORY := "/attachments/"

  function TaskAttachment(taskId: Uuid, storageName: string): string {
    DIRECTORY + taskId.text + SUBDIRECTORY + storageName
  }

  function StorageKey(taskId: Uuid, name: Uuid, safe: string): string {
    TaskAttachment(taskId, name.text + "-" + safe)
  }

  // ---- The last element ----

  predicate Slashless(s: string) {
    Without('/', s)
  }

  lemma {:induction false} StripExact(s: string)
    ensures StripSlashes(s) <= s && (forall i | |StripSlashes(s)| <= i < |s| :: s[i] == '/')
    ensures StripSlashes(s) != "" ==> StripSlashes(s)[|StripSlashes(s)| - 1] != '/'
  {
    if s != "" && s[|s| - 1] == '/' {
      StripExact(s[..|s| - 1]);
    }
  }

  lemma {:induction false} AfterSlashExact(s: string) returns (before: string)
    ensures s == before + AfterSlash(s) && Slashless(AfterSlash(s))
    ensures before != "" ==> before[|before| - 1] == '/'
  {
    if s == "" || s[|s| - 1] == '/' {
      before := s;
    } else {
      before := AfterSlashExact(s[..|s| - 1]);
      assert s == s[..|s| - 1] + [s[|s| - 1]];
    }
  }

  /**
    The last element of a path: "." for the empty path, "/" for slashes only, and otherwise the characters
    between the last slash that has something else behind it and the slashes at the end.
   */
  lemma BaseExact(p: string) returns (before: string, slashes: string)
    ensures || (Base(p) == "." && p == "" && before == "" && slashes == "")
            || (Base(p) == "/" && p == slashes && before == "" && slashes != "")
            || (Slashless(Base(p)) && Base(p) != "" && p == before + Base(p) + slashes)
    ensures before != "" ==> before[|before| - 1] == '/'
    ensures forall c | c in slashes :: c == '/'
  {
    StripExact(p);
    var stripped := StripSlashes(p);
    slashes := p[|stripped|..];
    before := AfterSlashExact(stripped);
    assert p == stripped + slashes;
    if stripped == "" {
      before := "";
    } else {
      assert AfterSlash(stripped) != "";
    }
  }

  lemma {:induction false} SlashedHasNoBackslash(s: string)
    ensures |Slashed(s)| == |s| && '\\' !in Slashed(s)
    ensures forall i | 0 <= i < |s| :: Slashed(s)[i] == if s[i] == '\\' then '/' else s[i]
  {
    if s != "" {
      SlashedHasNoBackslash(s[1..]);
    }
  }

  /** An accepted name is a single path element: it has no slash and no backslash, whatever was sent. */
  lemma AcceptedNameIsOneElement(filename: string)
    requires Acceptable(SanitizeAttachmentFilename(filename))
    ensures Slashless(SanitizeAttachmentFilename(filename)) && '\\' !in SanitizeAttachmentFilename(filename)
  {
    var p := Slashed(TrimSpace(filename));
    SlashedHasNoBackslash(TrimSpace(filename));
    var before, slashes := BaseExact(p);
    assert p == before + Base(p) + slashes;
    assert forall c | c in Base(p) :: c in p;
  }

  // ---- The key ----

  lemma SplitLast(a: string, b: string)
    requires Slashless(a) && Slashless(b)
    ensures Split('/', a + "/" + b) == [a, b]
  {
    SplitOne('/', a, b);
  }

  lemma SplitFront(a: string, b: string, rest: string, elements: seq<string>)
    requires Slashless(a) && Slashless(b) && Split('/', rest) == elements
    ensures Split('/', a + "/" + (b + "/" + rest)) == [a, b] + elements
  {
    SplitOne('/', b, rest);
    SplitOne('/', a, b + "/" + rest);
  }

  lemma SplitFive(a: string, b: string, c: string, d: string, e: string)
    requires Slashless(a) && Slashless(b) && Slashless(c) && Slashless(d) && Slashless(e)
    ensures Split('/', a + "/" + (b + "/" + (c + "/" + (d + "/" + e)))) == [a, b, c, d, e]
  {
    var last := d + "/" + e;
    var tail := c + "/" + last;
    SplitLast(d, e);
    SplitOne('/', c, last);
    SplitFront(a, b, tail, [c, d, e]);
  }

  lemma Regroup(a: string, t: string, s: string, x: string, f: string)
    ensures (a + s + t + s) + x + (s + a + s) + f == a + s + (t + s + (x + s + (a + s + f)))
  {
  }

  lemma UuidSlashless(id: Uuid)
    ensures Slashless(id.text)
  {
  }

  lemma DirectoryParts()
    ensures DIRECTORY == "attachments" + "/" + "tasks" + "/" && SUBDIRECTORY == "/" + "attachments" + "/"
    ensures Slashless("attachments") && Slashless("tasks")
  {
  }

  /** A key has exactly five path elements, the last of which is the storage name; none is a dot element. */
  lemma KeyElements(taskId: Uuid, name: Uuid, safe: string)
    requires Slashless(safe)
    ensures Split('/', StorageKey(taskId, name, safe)) == ["attachments", "tasks", taskId.text, "attachments", name.text + "-" + safe]
    ensures forall e | e in ["attachments", "tasks", taskId.text, "attachments", name.text + "-" + safe] :: |e| > 2
  {
    var root, tasks, file := "attachments", "tasks", name.text + "-" + safe;
    UuidSlashless(taskId);
    UuidSlashless(name);
    DirectoryParts();
    Regroup(root, tasks, "/", taskId.text, file);
    SplitFive(root, tasks, taskId.text, root, file);
  }

  /** The UUID a key was made with can be read off at a fixed place. */
  function NameIn(key: string): string
    requires |key| >= 103
  {
    key[67..103]
  }

  lemma KeyHoldsName(taskId: Uuid, name: Uuid, safe: string)
    ensures |StorageKey(taskId, name, safe)| >= 103 && NameIn(StorageKey(taskId, name, safe)) == name.text
  {
    var head := DIRECTORY + taskId.text + SUBDIRECTORY;
    assert |head| == 67;
    assert StorageKey(taskId, name, safe) == head + (name.text + ("-" + safe));
  }

  /** Keys made with different UUIDs differ, whatever the tasks and file names. */
  lemma KeysDistinct(t: Uuid, n: Uuid, f: string, t': Uuid, n': Uuid, f': string)
    requires n != n'
    ensures StorageKey(t, n, f) != StorageKey(t', n', f')
  {
    KeyHoldsName(t, n, f);
    KeyHoldsName(t', n', f');
  }
}
