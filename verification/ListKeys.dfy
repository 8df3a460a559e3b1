/**
  The text that is hashed into the cache key of a list query, for tasks and for users. The hash is
  taken to be injective, so two queries share a cache entry exactly when their texts are equal.
 */
module ListKeys {
  import opened Prelude

  datatype Pagination = Pagination(page: int, pageSize: int, sortBy: string, sortDesc: bool)

  /** What the validator lets through. */
  predicate ValidPagination(p: Pagination) {
    && p.page >= 1
    && 1 <= p.pageSize <= 100
    && p.sortBy in ["", "createdAt", "updatedAt", "dueDate", "priority", "title"]
  }

  datatype UserFilter = UserFilter(search: string, roleId: Option<Uuid>)

  /** A *bool is printed as the address it points to, so the filter carries the address too. */
  datatype BoolRef = BoolRef(address: string, target: bool)

  datatype Status = Todo | InProgress | InReview | Done | Archived

  datatype Priority = Low | Medium | High | Urgent

  datatype TaskFilter = TaskFilter(
    search: string,
    assigneeId: Option<Uuid>,
    creatorId: Option<Uuid>,
    isOverdue: Option<BoolRef>,
    labelIds: seq<Uuid>,
    status: Option<Status>,
    priority: Option<Priority>)

  function StatusText(s: Status): string {
    match s
    case Todo => "TODO"
    case InProgress => "IN_PROGRESS"
    case InReview => "IN_REVIEW"
    case Done => "DONE"
    case Archived => "ARCHIVED"
  }

  function PriorityText(p: Priority): string {
    match p
    case Low => "LOW"
    case Medium => "MEDIUM"
    case High => "HIGH"
    case Urgent => "URGENT"
  }

  function BoolText(b: bool): string {
    if b then "true" else "false"
  }

  // ---- Decimal numbers ----

  function Digit(d: int): char
    requires 0 <= d < 10
  {
    ['0', '1', '2', '3', '4', '5', '6', '7', '8', '9'][d]
  }

  function DecimalNat(n: nat): string {
    if n < 10 then [Digit(n)] else DecimalNat(n / 10) + [Digit(n % 10)]
  }

  function Decimal(n: int): string {
    if n < 0 then "-" + DecimalNat(-n) else DecimalNat(n)
  }

  lemma {:induction false} DecimalNatShape(n: nat)
    ensures |DecimalNat(n)| > 0 && forall c | c in DecimalNat(n) :: '0' <= c <= '9'
  {
    if n >= 10 {
      DecimalNatShape(n / 10);
    }
  }

  lemma {:induction false} DecimalNatInjective(m: nat, n: nat)
    requires DecimalNat(m) == DecimalNat(n)
    ensures m == n
  {
    var s := DecimalNat(m);
    assert s[|s| - 1] == Digit(m % 10) == Digit(n % 10);
    if m >= 10 && n >= 10 {
      assert s[..|s| - 1] == DecimalNat(m / 10) == DecimalNat(n / 10);
      DecimalNatInjective(m / 10, n / 10);
    } else if m >= 10 {
      DecimalNatShape(m / 10);
    } else if n >= 10 {
      DecimalNatShape(n / 10);
    }
  }

  lemma SignShows(n: int)
    ensures Decimal(n) != [] && (Decimal(n)[0] == '-' <==> n < 0)
  {
    DecimalNatShape(if n < 0 then -n else n);
    if n >= 0 {
      assert Decimal(n)[0] in DecimalNat(n);
    }
  }

  lemma DecimalInjective(m: int, n: int)
    ensures Decimal(m) == Decimal(n) <==> m == n
  {
    if Decimal(m) == Decimal(n) {
      DecimalNatShape(if m < 0 then -m else m);
      DecimalNatShape(if n < 0 then -n else n);
      SignShows(m);
      SignShows(n);
      if m < 0 {
        assert DecimalNat(-m) == Decimal(m)[1..] == DecimalNat(-n);
        DecimalNatInjective(-m, -n);
      } else {
        DecimalNatInjective(m, n);
      }
    }
  }

  // ---- Bar-separated text ----

  predicate PipeFree(s: string) {
    '|' !in s
  }

  /** The text followed by every token, each preceded by a bar. */
  function Append(u: string, tokens: seq<string>): string {
    if tokens == [] then u else Append(u, tokens[..|tokens| - 1]) + "|" + tokens[|tokens| - 1]
  }

  ghost predicate Tokens(tokens: seq<string>) {
    forall t | t in tokens :: PipeFree(t)
  }

  lemma AppendOne(u: string, ts: seq<string>, t: string)
    ensures Append(u, ts + [t]) == Append(u, ts) + "|" + t
  {
    assert (ts + [t])[..|ts|] == ts;
  }

  lemma {:induction false} AppendTwice(u: string, a: seq<string>, b: seq<string>)
    ensures Append(Append(u, a), b) == Append(u, a + b)
  {
    if b == [] {
      assert a + b == a;
    } else {
      AppendTwice(u, a, b[..|b| - 1]);
      assert (a + b)[..|a + b| - 1] == a + b[..|b| - 1];
    }
  }

  lemma BarInside(a: string, x: string, b: string, y: string)
    requires |a| < |b| && a + "|" + x == b + "|" + y
    ensures !PipeFree(x)
  {
    var s := a + "|" + x;
    assert s[|b|] == (b + "|" + y)[|b|] == '|';
    assert s[|b|] == x[|b| - |a| - 1];
  }

  /** The text after the last bar is determined, and so is the text before it. */
  lemma LastBar(a: string, x: string, b: string, y: string)
    requires PipeFree(x) && PipeFree(y)
    requires a + "|" + x == b + "|" + y
    ensures a == b && x == y
  {
    if |a| < |b| {
      BarInside(a, x, b, y);
    } else if |b| < |a| {
      BarInside(b, y, a, x);
    } else {
      var s, t := a + "|" + x, b + "|" + y;
      assert s[..|a|] == a && t[..|a|] == b;
      assert s[|a| + 1..] == x && t[|a| + 1..] == y;
    }
  }

  lemma PeelLast(u: string, ts: seq<string>, v: string, ws: seq<string>)
    requires ts != [] && ws != [] && Tokens(ts) && Tokens(ws)
    requires Append(u, ts) == Append(v, ws)
    ensures ts[|ts| - 1] == ws[|ws| - 1]
    ensures Append(u, ts[..|ts| - 1]) == Append(v, ws[..|ws| - 1])
  {
    LastBar(Append(u, ts[..|ts| - 1]), ts[|ts| - 1], Append(v, ws[..|ws| - 1]), ws[|ws| - 1]);
  }

  predicate IsMarker(t: string) {
    |t| > 0 && t[0] == 'o'
  }

  /** Token lists that start with a marker found nowhere else in them can be read off from the right. */
  lemma {:induction false} ReadBackToMarker(u: string, ts: seq<string>, v: string, ws: seq<string>)
    requires Tokens(ts) && Tokens(ws)
    requires ts != [] && IsMarker(ts[0]) && forall i | 1 <= i < |ts| :: !IsMarker(ts[i])
    requires ws != [] && IsMarker(ws[0]) && forall i | 1 <= i < |ws| :: !IsMarker(ws[i])
    requires Append(u, ts) == Append(v, ws)
    ensures u == v && ts == ws
    decreases |ts|
  {
    PeelLast(u, ts, v, ws);
    var ts', ws' := ts[..|ts| - 1], ws[..|ws| - 1];
    if |ts| > 1 && |ws| > 1 {
      ReadBackToMarker(u, ts', v, ws');
    } else {
      assert ts' == [] && ws' == [];
    }
    assert ts == ts' + [ts[|ts| - 1]] && ws == ws' + [ws[|ws| - 1]];
  }

  lemma AppendHasBar(u: string, ts: seq<string>)
    requires ts != []
    ensures !PipeFree(Append(u, ts))
  {
    var front, last := Append(u, ts[..|ts| - 1]), ts[|ts| - 1];
    assert Append(u, ts)[|front|] == '|';
  }

  /** Text free of bars followed by tokens can be read off completely. */
  lemma {:induction false} ReadBackPipeFree(u: string, ts: seq<string>, v: string, ws: seq<string>)
    requires PipeFree(u) && PipeFree(v) && Tokens(ts) && Tokens(ws)
    requires Append(u, ts) == Append(v, ws)
    ensures u == v && ts == ws
    decreases |ts|
  {
    if ts == [] && ws == [] {
    } else if ts == [] {
      AppendHasBar(v, ws);
    } else if ws == [] {
      AppendHasBar(u, ts);
    } else {
      PeelLast(u, ts, v, ws);
      ReadBackPipeFree(u, ts[..|ts| - 1], v, ws[..|ws| - 1]);
      assert ts == ts[..|ts| - 1] + [ts[|ts| - 1]] && ws == ws[..|ws| - 1] + [ws[|ws| - 1]];
    }
  }

  /** Token lists of one length can be read off whatever text comes before them. */
  lemma {:induction false} ReadBackSameLength(u: string, ts: seq<string>, v: string, ws: seq<string>)
    requires |ts| == |ws| && Tokens(ts) && Tokens(ws)
    requires Append(u, ts) == Append(v, ws)
    ensures u == v && ts == ws
    decreases |ts|
  {
    if ts != [] {
      PeelLast(u, ts, v, ws);
      ReadBackSameLength(u, ts[..|ts| - 1], v, ws[..|ws| - 1]);
      assert ts == ts[..|ts| - 1] + [ts[|ts| - 1]] && ws == ws[..|ws| - 1] + [ws[|ws| - 1]];
    }
  }

  // ---- The tokens of a query ----

  function PaginationTokens(p: Pagination): seq<string> {
    ["page=" + Decimal(p.page), "size=" + Decimal(p.pageSize), "sort=" + p.sortBy, "desc=" + BoolText(p.sortDesc)]
  }

  function OptToken(name: string, value: Option<string>): seq<string> {
    if value.Some? then [name + value.value] else []
  }

  function IdText(id: Option<Uuid>): Option<string> {
    if id.Some? then Some(id.value.text) else None
  }

  function StatusToken(s: Option<Status>): seq<string> {
    if s.Some? then ["status=" + StatusText(s.value)] else []
  }

  function PriorityToken(p: Option<Priority>): seq<string> {
    if p.Some? then ["priority=" + PriorityText(p.value)] else []
  }

  function LabelTokens(labels: seq<Uuid>): seq<string> {
    if labels == [] then [] else ["label=" + labels[0].text] + LabelTokens(labels[1..])
  }

  function OverdueText(ref: Option<BoolRef>): string {
    if ref.Some? then ref.value.address else "<nil>"
  }

  /** The optional user references that stand between the search text and the first fixed token. */
  function PeopleTokens(f: TaskFilter): seq<string> {
    OptToken("assignee=", IdText(f.assigneeId)) + OptToken("creator=", IdText(f.creatorId))
  }

  function TailTokens(f: TaskFilter, p: Pagination): seq<string> {
    OptionTokens(Sort(f.labelIds), f.status, f.priority) + PaginationTokens(p)
  }

  /** The search text with the tokens that follow it immediately. */
  function TaskHead(f: TaskFilter): string {
    Append("search=" + f.search, PeopleTokens(f))
  }

  function TaskTokens(f: TaskFilter, p: Pagination): seq<string> {
    ["overdue=" + OverdueText(f.isOverdue)] + TailTokens(f, p)
  }

  function TaskListText(f: TaskFilter, p: Pagination): string {
    Append(TaskHead(f), TaskTokens(f, p))
  }

  function UserHead(f: UserFilter): string {
    Append("search=" + f.search, OptToken("role=", IdText(f.roleId)))
  }

  function UserListText(f: UserFilter, p: Pagination): string {
    Append(UserHead(f), PaginationTokens(p))
  }

  // ---- Sorting labels by their text ----

  predicate LexLeq(a: string, b: string) {
    if a == [] then true
    else if b == [] then false
    else if a[0] != b[0] then a[0] < b[0]
    else LexLeq(a[1..], b[1..])
  }

  lemma {:induction false} LexTotal(a: string, b: string)
    ensures LexLeq(a, b) || LexLeq(b, a)
  {
    if a != [] && b != [] && a[0] == b[0] {
      LexTotal(a[1..], b[1..]);
    }
  }

  lemma {:induction false} LexAntisymmetric(a: string, b: string)
    requires LexLeq(a, b) && LexLeq(b, a)
    ensures a == b
  {
    if a != [] {
      LexAntisymmetric(a[1..], b[1..]);
      assert a == [a[0]] + a[1..] && b == [b[0]] + b[1..];
    }
  }

  lemma {:induction false} LexTransitive(a: string, b: string, c: string)
    requires LexLeq(a, b) && LexLeq(b, c)
    ensures LexLeq(a, c)
  {
    if a != [] && a[0] == b[0] == c[0] {
      LexTransitive(a[1..], b[1..], c[1..]);
    }
  }

  ghost predicate Sorted(s: seq<Uuid>) {
    forall i, j | 0 <= i < j < |s| :: LexLeq(s[i].text, s[j].text)
  }

  function Insert(x: Uuid, s: seq<Uuid>): seq<Uuid> {
    if s == [] || LexLeq(x.text, s[0].text) then [x] + s else [s[0]] + Insert(x, s[1..])
  }

  function Sort(s: seq<Uuid>): seq<Uuid> {
    if s == [] then [] else Insert(s[0], Sort(s[1..]))
  }

  lemma {:induction false} InsertCorrect(x: Uuid, s: seq<Uuid>)
    requires Sorted(s)
    ensures Sorted(Insert(x, s)) && multiset(Insert(x, s)) == multiset(s) + multiset{x}
  {
    if s == [] {
    } else if LexLeq(x.text, s[0].text) {
      forall j | 0 <= j < |s| ensures LexLeq(x.text, s[j].text) {
        if j > 0 { LexTransitive(x.text, s[0].text, s[j].text); }
      }
    } else {
      InsertCorrect(x, s[1..]);
      LexTotal(x.text, s[0].text);
      var rest := Insert(x, s[1..]);
      assert s == [s[0]] + s[1..];
      forall j | 0 <= j < |rest| ensures LexLeq(s[0].text, rest[j].text) {
        assert rest[j] in multiset(rest);
        assert rest[j] in s[1..] || rest[j] == x;
      }
    }
  }

  lemma {:induction false} SortCorrect(s: seq<Uuid>)
    ensures Sorted(Sort(s)) && multiset(Sort(s)) == multiset(s)
  {
    if s != [] {
      SortCorrect(s[1..]);
      InsertCorrect(s[0], Sort(s[1..]));
      assert s == [s[0]] + s[1..];
    }
  }

  lemma SortedHeadsEqual(s: seq<Uuid>, t: seq<Uuid>)
    requires Sorted(s) && Sorted(t) && multiset(s) == multiset(t) && s != [] && t != []
    ensures s[0] == t[0]
  {
    assert s[0] in multiset(t) && t[0] in multiset(s);
    var i :| 0 <= i < |t| && t[i] == s[0];
    var j :| 0 <= j < |s| && s[j] == t[0];
    if i > 0 && j > 0 {
      LexAntisymmetric(s[0].text, t[0].text);
    }
  }

  lemma {:induction false} SortedUnique(s: seq<Uuid>, t: seq<Uuid>)
    requires Sorted(s) && Sorted(t) && multiset(s) == multiset(t)
    ensures s == t
  {
    assert |s| == |multiset(s)| == |multiset(t)| == |t|;
    if s != [] {
      SortedHeadsEqual(s, t);
      MultisetTail(s);
      MultisetTail(t);
      SortedUnique(s[1..], t[1..]);
      assert s == [s[0]] + s[1..] && t == [t[0]] + t[1..];
    }
  }

  lemma MultisetTail(s: seq<Uuid>)
    requires s != []
    ensures multiset(s[1..]) == multiset(s) - multiset{s[0]}
  {
    assert s == [s[0]] + s[1..];
  }

  /** Sorting forgets order and nothing else. */
  lemma SortCanonical(s: seq<Uuid>, t: seq<Uuid>)
    ensures Sort(s) == Sort(t) <==> multiset(s) == multiset(t)
  {
    SortCorrect(s);
    SortCorrect(t);
    if multiset(s) == multiset(t) {
      SortedUnique(Sort(s), Sort(t));
    }
  }

  // ---- Tokens determine the query ----

  lemma UuidPipeFree(id: Uuid)
    ensures PipeFree(id.text)
  {
  }

  lemma DecimalPipeFree(n: int)
    ensures PipeFree(Decimal(n))
  {
    DecimalNatShape(if n < 0 then -n else n);
  }

  /** Tokens with no bar inside and not mistakable for the overdue marker. */
  ghost predicate Plain(tokens: seq<string>) {
    forall t | t in tokens :: PipeFree(t) && !IsMarker(t)
  }

  lemma PlainConcat(a: seq<string>, b: seq<string>)
    requires Plain(a) && Plain(b)
    ensures Plain(a + b)
  {
  }

  lemma PaginationTokensPlain(p: Pagination)
    requires PipeFree(p.sortBy)
    ensures Plain(PaginationTokens(p))
  {
    DecimalPipeFree(p.page);
    DecimalPipeFree(p.pageSize);
  }

  lemma StatusTokenPlain(s: Option<Status>)
    ensures Plain(StatusToken(s))
  {
  }

  lemma PriorityTokenPlain(p: Option<Priority>)
    ensures Plain(PriorityToken(p))
  {
  }

  lemma SamePrefix(a: string, x: string, y: string)
    ensures a + x == a + y <==> x == y
  {
    if a + x == a + y {
      assert (a + x)[|a|..] == x && (a + y)[|a|..] == y;
    }
  }

  lemma PaginationTokensInjective(p: Pagination, q: Pagination)
    requires PaginationTokens(p) == PaginationTokens(q)
    ensures p == q
  {
    var ts, ws := PaginationTokens(p), PaginationTokens(q);
    assert ts[0] == ws[0] && ts[1] == ws[1] && ts[2] == ws[2] && ts[3] == ws[3];
    SamePrefix("page=", Decimal(p.page), Decimal(q.page));
    SamePrefix("size=", Decimal(p.pageSize), Decimal(q.pageSize));
    SamePrefix("sort=", p.sortBy, q.sortBy);
    SamePrefix("desc=", BoolText(p.sortDesc), BoolText(q.sortDesc));
    DecimalInjective(p.page, q.page);
    DecimalInjective(p.pageSize, q.pageSize);
  }

  lemma {:induction false} LabelTokensPlain(labels: seq<Uuid>)
    ensures Plain(LabelTokens(labels))
  {
    if labels != [] {
      UuidPipeFree(labels[0]);
      LabelTokensPlain(labels[1..]);
    }
  }

  lemma TailTokensPlain(f: TaskFilter, p: Pagination)
    requires PipeFree(p.sortBy)
    ensures Plain(TailTokens(f, p))
  {
    LabelTokensPlain(Sort(f.labelIds));
    StatusTokenPlain(f.status);
    PriorityTokenPlain(f.priority);
    PaginationTokensPlain(p);
    PlainConcat(StatusToken(f.status), PriorityToken(f.priority));
    PlainConcat(LabelTokens(Sort(f.labelIds)), StatusToken(f.status) + PriorityToken(f.priority));
    PlainConcat(OptionTokens(Sort(f.labelIds), f.status, f.priority), PaginationTokens(p));
  }

  function OptionTokens(l: seq<Uuid>, s: Option<Status>, p: Option<Priority>): seq<string> {
    LabelTokens(l) + (StatusToken(s) + PriorityToken(p))
  }

  lemma OptionTokensStep(l: seq<Uuid>, s: Option<Status>, p: Option<Priority>)
    requires l != []
    ensures OptionTokens(l, s, p) == ["label=" + l[0].text] + OptionTokens(l[1..], s, p)
  {
  }

  /** Labels, status and priority tokens differ in their first letter, so they separate. */
  lemma {:induction false} OptionsInjective(l: seq<Uuid>, s: Option<Status>, p: Option<Priority>,
                                            l': seq<Uuid>, s': Option<Status>, p': Option<Priority>)
    requires OptionTokens(l, s, p) == OptionTokens(l', s', p')
    ensures l == l' && s == s' && p == p'
    decreases |l|
  {
    var ts, ws := OptionTokens(l, s, p), OptionTokens(l', s', p');
    if l == [] && l' == [] {
      assert ts == StatusToken(s) + PriorityToken(p) && ws == StatusToken(s') + PriorityToken(p');
      OptionTokensInjective(s, p, s', p');
    } else if l != [] && l' != [] {
      OptionTokensStep(l, s, p);
      OptionTokensStep(l', s', p');
      assert ts[0] == ws[0] && ts[1..] == OptionTokens(l[1..], s, p) && ws[1..] == OptionTokens(l'[1..], s', p');
      SamePrefix("label=", l[0].text, l'[0].text);
      OptionsInjective(l[1..], s, p, l'[1..], s', p');
      assert l == [l[0]] + l[1..] && l' == [l'[0]] + l'[1..];
    } else if l == [] {
      OptionTokensStep(l', s', p');
      LabelsFirst(s, p, l', s', p');
    } else {
      OptionTokensStep(l, s, p);
      LabelsFirst(s', p', l, s, p);
    }
  }

  lemma LabelsFirst(s: Option<Status>, p: Option<Priority>, l': seq<Uuid>, s': Option<Status>, p': Option<Priority>)
    requires l' != []
    ensures OptionTokens([], s, p) != OptionTokens(l', s', p')
  {
    var ts, ws := OptionTokens([], s, p), OptionTokens(l', s', p');
    assert ts == StatusToken(s) + PriorityToken(p);
    assert ws[0][0] == 'l';
    if ts != [] {
      assert ts[0][0] == 's' || ts[0][0] == 'p';
    }
  }

  lemma OptionTokensInjective(s: Option<Status>, p: Option<Priority>, s': Option<Status>, p': Option<Priority>)
    requires StatusToken(s) + PriorityToken(p) == StatusToken(s') + PriorityToken(p')
    ensures s == s' && p == p'
  {
    var ts, ws := StatusToken(s) + PriorityToken(p), StatusToken(s') + PriorityToken(p');
    if |ts| == 1 {
      assert ts[0][0] == ws[0][0];
      assert ts[0][1] == ws[0][1];
    }
    if s.Some? {
      assert ts[0] == ws[0];
      SamePrefix("status=", StatusText(s.value), StatusText(s'.value));
      StatusTextInjective(s.value, s'.value);
    }
    if p.Some? {
      assert ts[|ts| - 1] == ws[|ws| - 1];
      SamePrefix("priority=", PriorityText(p.value), PriorityText(p'.value));
      PriorityTextInjective(p.value, p'.value);
    }
  }

  lemma StatusTextInjective(s: Status, t: Status)
    ensures StatusText(s) == StatusText(t) <==> s == t
  {
    if StatusText(s) == StatusText(t) {
      assert |StatusText(s)| == |StatusText(t)|;
      assert StatusText(s)[0] == StatusText(t)[0];
    }
  }

  lemma PriorityTextInjective(p: Priority, q: Priority)
    ensures PriorityText(p) == PriorityText(q) <==> p == q
  {
    if PriorityText(p) == PriorityText(q) {
      assert PriorityText(p)[0] == PriorityText(q)[0];
    }
  }

  lemma TailTokensInjective(f: TaskFilter, p: Pagination, g: TaskFilter, q: Pagination)
    requires TailTokens(f, p) == TailTokens(g, q)
    ensures Sort(f.labelIds) == Sort(g.labelIds) && f.status == g.status && f.priority == g.priority && p == q
  {
    var ts, ws := TailTokens(f, p), TailTokens(g, q);
    var n := |ts| - 4;
    assert ts[n..] == PaginationTokens(p) && ws[n..] == PaginationTokens(q);
    PaginationTokensInjective(p, q);
    assert ts[..n] == OptionTokens(Sort(f.labelIds), f.status, f.priority);
    assert ws[..n] == OptionTokens(Sort(g.labelIds), g.status, g.priority);
    OptionsInjective(Sort(f.labelIds), f.status, f.priority, Sort(g.labelIds), g.status, g.priority);
  }

  // ---- When do two queries share a cache entry? ----

  ghost predicate AddressPipeFree(f: TaskFilter) {
    f.isOverdue.Some? ==> PipeFree(f.isOverdue.value.address)
  }

  /**
    Exactly when two task queries have the same text, for any search strings at all: pagination, status,
    priority and the printed overdue reference agree, the label lists are permutations of each other, and
    the search text run together with the assignee and creator tokens is the same.
   */
  lemma TaskListTextExact(f: TaskFilter, p: Pagination, g: TaskFilter, q: Pagination)
    requires ValidPagination(p) && ValidPagination(q) && AddressPipeFree(f) && AddressPipeFree(g)
    ensures TaskListText(f, p) == TaskListText(g, q)
       <==> && TaskHead(f) == TaskHead(g)
            && OverdueText(f.isOverdue) == OverdueText(g.isOverdue)
            && multiset(f.labelIds) == multiset(g.labelIds)
            && f.status == g.status && f.priority == g.priority
            && p == q
  {
    SortCanonical(f.labelIds, g.labelIds);
    ValidSortPipeFree(p);
    ValidSortPipeFree(q);
    if TaskListText(f, p) == TaskListText(g, q) {
      TaskTextReadBack(f, p, g, q);
    }
    if && TaskHead(f) == TaskHead(g)
       && OverdueText(f.isOverdue) == OverdueText(g.isOverdue)
       && Sort(f.labelIds) == Sort(g.labelIds)
       && f.status == g.status && f.priority == g.priority && p == q {
      assert TailTokens(f, p) == TailTokens(g, q);
      assert TaskTokens(f, p) == TaskTokens(g, q);
    }
  }

  /** The longer token list ends in the shorter one, and the other search text spells out the rest. */
  predicate Spells(u: string, ts: seq<string>, v: string, ws: seq<string>) {
    && |ws| <= |ts| && ws == ts[|ts| - |ws|..]
    && v == Append(u, ts[..|ts| - |ws|])
  }

  lemma {:induction false} AppendExact(u: string, ts: seq<string>, v: string, ws: seq<string>)
    requires Tokens(ts) && Tokens(ws) && |ws| <= |ts|
    ensures Append(u, ts) == Append(v, ws) <==> Spells(u, ts, v, ws)
    decreases |ws|
  {
    if ws == [] {
      assert ts[..|ts|] == ts;
    } else {
      var ts', ws' := ts[..|ts| - 1], ws[..|ws| - 1];
      var t, w := ts[|ts| - 1], ws[|ws| - 1];
      AppendExact(u, ts', v, ws');
      var k := |ts| - |ws|;
      assert ts'[..k] == ts[..k] && ts' + [t] == ts && ws' + [w] == ws;
      assert ts[k..] == ts'[k..] + [t];
      if Append(u, ts) == Append(v, ws) {
        PeelLast(u, ts, v, ws);
      }
      if Spells(u, ts, v, ws) {
        assert ws' == ts'[k..] && w == t;
      }
    }
  }

  /**
    When two task queries agree on search, assignee and creator as far as their text goes: they do agree, or
    one search text ends in people tokens spelled out, which the other query has as filters.
   */
  lemma TaskHeadExact(f: TaskFilter, g: TaskFilter)
    ensures TaskHead(f) == TaskHead(g)
       <==> || Spells("search=" + f.search, PeopleTokens(f), "search=" + g.search, PeopleTokens(g))
            || Spells("search=" + g.search, PeopleTokens(g), "search=" + f.search, PeopleTokens(f))
    ensures |PeopleTokens(f)| == |PeopleTokens(g)| ==>
              (TaskHead(f) == TaskHead(g) <==> f.search == g.search && f.assigneeId == g.assigneeId && f.creatorId == g.creatorId)
  {
    PeopleTokensFine(f);
    PeopleTokensFine(g);
    var u, ts, v, ws := "search=" + f.search, PeopleTokens(f), "search=" + g.search, PeopleTokens(g);
    if |ws| <= |ts| {
      AppendExact(u, ts, v, ws);
    }
    if |ts| <= |ws| {
      AppendExact(v, ws, u, ts);
    }
    if |ts| == |ws| && TaskHead(f) == TaskHead(g) {
      ReadBackSameLength(u, ts, v, ws);
      SamePrefix("search=", f.search, g.search);
      PeopleTokensInjective(f, g);
    }
  }

  lemma ValidSortPipeFree(p: Pagination)
    requires ValidPagination(p)
    ensures PipeFree(p.sortBy)
  {
  }

  lemma OverdueTokenMarks(f: TaskFilter)
    requires AddressPipeFree(f)
    ensures PipeFree("overdue=" + OverdueText(f.isOverdue)) && IsMarker("overdue=" + OverdueText(f.isOverdue))
  {
  }

  lemma TaskTextReadBack(f: TaskFilter, p: Pagination, g: TaskFilter, q: Pagination)
    requires PipeFree(p.sortBy) && PipeFree(q.sortBy) && AddressPipeFree(f) && AddressPipeFree(g)
    requires TaskListText(f, p) == TaskListText(g, q)
    ensures TaskHead(f) == TaskHead(g) && OverdueText(f.isOverdue) == OverdueText(g.isOverdue)
    ensures Sort(f.labelIds) == Sort(g.labelIds) && f.status == g.status && f.priority == g.priority && p == q
  {
    var ts, ws := TaskTokens(f, p), TaskTokens(g, q);
    TailTokensPlain(f, p);
    TailTokensPlain(g, q);
    OverdueTokenMarks(f);
    OverdueTokenMarks(g);
    ReadBackToMarker(TaskHead(f), ts, TaskHead(g), ws);
    assert ts[0] == ws[0] && ts[1..] == TailTokens(f, p) && ws[1..] == TailTokens(g, q);
    SamePrefix("overdue=", OverdueText(f.isOverdue), OverdueText(g.isOverdue));
    TailTokensInjective(f, p, g, q);
  }

  lemma PeopleTokensFine(f: TaskFilter)
    ensures Tokens(PeopleTokens(f))
  {
  }

  lemma PeopleTokensInjective(f: TaskFilter, g: TaskFilter)
    requires PeopleTokens(f) == PeopleTokens(g)
    ensures f.assigneeId == g.assigneeId && f.creatorId == g.creatorId
  {
    var ts, ws := PeopleTokens(f), PeopleTokens(g);
    if |ts| == 1 {
      assert ts[0][0] == ws[0][0];
    }
    if f.assigneeId.Some? {
      assert ts[0] == ws[0];
      SamePrefix("assignee=", f.assigneeId.value.text, g.assigneeId.value.text);
    }
    if f.creatorId.Some? {
      assert ts[|ts| - 1] == ws[|ws| - 1];
      SamePrefix("creator=", f.creatorId.value.text, g.creatorId.value.text);
    }
  }

  /** Without bars in the search text and with the overdue filter unset, a shared entry means the same query. */
  lemma TaskListKeyInjective(f: TaskFilter, p: Pagination, g: TaskFilter, q: Pagination)
    requires ValidPagination(p) && ValidPagination(q)
    requires PipeFree(f.search) && PipeFree(g.search) && f.isOverdue.None? && g.isOverdue.None?
    ensures TaskListText(f, p) == TaskListText(g, q)
       <==> f.(labelIds := []) == g.(labelIds := []) && multiset(f.labelIds) == multiset(g.labelIds) && p == q
  {
    TaskListTextExact(f, p, g, q);
    if TaskListText(f, p) == TaskListText(g, q) {
      PeopleTokensFine(f);
      PeopleTokensFine(g);
      ReadBackPipeFree("search=" + f.search, PeopleTokens(f), "search=" + g.search, PeopleTokens(g));
      SamePrefix("search=", f.search, g.search);
      PeopleTokensInjective(f, g);
    }
  }

  /** The overdue filter is printed by address: at one address, asking for true or for false shares an entry. */
  lemma OverdueTargetIgnored(f: TaskFilter, p: Pagination, address: string)
    ensures var yes, no := f.(isOverdue := Some(BoolRef(address, true))), f.(isOverdue := Some(BoolRef(address, false)));
            yes != no && TaskListText(yes, p) == TaskListText(no, p)
  {
    var yes, no := f.(isOverdue := Some(BoolRef(address, true))), f.(isOverdue := Some(BoolRef(address, false)));
    assert TaskHead(yes) == TaskHead(no) && TaskTokens(yes, p) == TaskTokens(no, p);
  }

  /** Exactly when two user queries have the same text, for any search strings at all. */
  lemma UserListTextExact(f: UserFilter, p: Pagination, g: UserFilter, q: Pagination)
    requires ValidPagination(p) && ValidPagination(q)
    ensures UserListText(f, p) == UserListText(g, q) <==> UserHead(f) == UserHead(g) && p == q
  {
    if UserListText(f, p) == UserListText(g, q) {
      ValidSortPipeFree(p);
      ValidSortPipeFree(q);
      PaginationTokensPlain(p);
      PaginationTokensPlain(q);
      ReadBackSameLength(UserHead(f), PaginationTokens(p), UserHead(g), PaginationTokens(q));
      PaginationTokensInjective(p, q);
    }
  }

  /** The same for user queries: equal search and role, or one search text ends in the other query's role token. */
  lemma UserHeadExact(f: UserFilter, g: UserFilter)
    ensures UserHead(f) == UserHead(g)
       <==> || f == g
            || (f.roleId.Some? && g.roleId.None? && g.search == f.search + "|role=" + f.roleId.value.text)
            || (g.roleId.Some? && f.roleId.None? && f.search == g.search + "|role=" + g.roleId.value.text)
  {
    var ts, ws := OptToken("role=", IdText(f.roleId)), OptToken("role=", IdText(g.roleId));
    if |ts| == |ws| && UserHead(f) == UserHead(g) {
      ReadBackSameLength("search=" + f.search, ts, "search=" + g.search, ws);
      SamePrefix("search=", f.search, g.search);
      if f.roleId.Some? {
        assert ts[0] == ws[0];
        SamePrefix("role=", f.roleId.value.text, g.roleId.value.text);
      }
    } else if f.roleId.Some? && g.roleId.None? {
      SpelledRole(f.search, f.roleId.value, g.search);
    } else if g.roleId.Some? && f.roleId.None? {
      SpelledRole(g.search, g.roleId.value, f.search);
    }
  }

  lemma SpelledRole(search: string, role: Uuid, spelled: string)
    ensures Append("search=" + search, ["role=" + role.text]) == "search=" + spelled <==> spelled == search + "|role=" + role.text
  {
    var tail := "|role=" + role.text;
    assert Append("search=" + search, ["role=" + role.text]) == "search=" + (search + tail);
    if "search=" + (search + tail) == "search=" + spelled {
      SamePrefix("search=", search + tail, spelled);
    }
    assert search + "|role=" + role.text == search + tail;
  }

  lemma UserListKeyInjective(f: UserFilter, p: Pagination, g: UserFilter, q: Pagination)
    requires ValidPagination(p) && ValidPagination(q) && PipeFree(f.search) && PipeFree(g.search)
    ensures UserListText(f, p) == UserListText(g, q) <==> f == g && p == q
  {
    UserListTextExact(f, p, g, q);
    if UserListText(f, p) == UserListText(g, q) {
      var ts, ws := OptToken("role=", IdText(f.roleId)), OptToken("role=", IdText(g.roleId));
      ReadBackPipeFree("search=" + f.search, ts, "search=" + g.search, ws);
      SamePrefix("search=", f.search, g.search);
      if f.roleId.Some? {
        assert ts[0] == ws[0];
        SamePrefix("role=", f.roleId.value.text, g.roleId.value.text);
      }
    }
  }

  /** A search text that spells out a role token collides with the query that has that role. */
  lemma BarInSearchCollides(role: Uuid, p: Pagination)
    ensures var spelled, typed := UserFilter("|role=" + role.text, None), UserFilter("", Some(role));
            spelled != typed && UserListText(spelled, p) == UserListText(typed, p)
  {
    var spelled, typed := UserFilter("|role=" + role.text, None), UserFilter("", Some(role));
    AppendOne("search=", [], "role=" + role.text);
    assert [] + ["role=" + role.text] == OptToken("role=", IdText(typed.roleId));
    assert "search=" + "" == "search=";
    assert "search=" + ("|role=" + role.text) == "search=" + "|" + ("role=" + role.text);
    assert UserHead(spelled) == UserHead(typed);
  }

  // ---- Writing the text piece by piece ----

  /** Every piece is written with its own bar behind it; labels are sorted by their text first. */
  method BuildTaskListText(f: TaskFilter, p: Pagination) returns (text: string)
    ensures text == TaskListText(f, p)
  {
    ghost var base, written := "search=" + f.search, [];
    text := "search=" + f.search + "|";
    text, written := AddOptional(base, text, written, "assignee=", IdText(f.assigneeId));
    text, written := AddOptional(base, text, written, "creator=", IdText(f.creatorId));
    text, written := AddToken(base, text, written, "overdue=" + OverdueText(f.isOverdue));
    text, written := AddLabels(base, text, written, Sort(f.labelIds));
    text, written := AddOptional(base, text, written, "status=", if f.status.Some? then Some(StatusText(f.status.value)) else None);
    text, written := AddOptional(base, text, written, "priority=", if f.priority.Some? then Some(PriorityText(f.priority.value)) else None);
    text := AddPagination(base, text, written, p);
    AllTokens(f, p);
    AppendTwice(base, PeopleTokens(f), TaskTokens(f, p));
  }

  lemma AllTokens(f: TaskFilter, p: Pagination)
    ensures [] + OptToken("assignee=", IdText(f.assigneeId)) + OptToken("creator=", IdText(f.creatorId))
            + ["overdue=" + OverdueText(f.isOverdue)] + LabelTokens(Sort(f.labelIds))
            + OptToken("status=", if f.status.Some? then Some(StatusText(f.status.value)) else None)
            + OptToken("priority=", if f.priority.Some? then Some(PriorityText(f.priority.value)) else None)
            + PaginationTokens(p)
         == PeopleTokens(f) + TaskTokens(f, p)
  {
    Regroup(OptToken("assignee=", IdText(f.assigneeId)), OptToken("creator=", IdText(f.creatorId)),
            ["overdue=" + OverdueText(f.isOverdue)], LabelTokens(Sort(f.labelIds)),
            StatusToken(f.status), PriorityToken(f.priority), PaginationTokens(p));
  }

  lemma Regroup(a: seq<string>, b: seq<string>, c: seq<string>, d: seq<string>, e: seq<string>, x: seq<string>, y: seq<string>)
    ensures [] + a + b + c + d + e + x + y == (a + b) + (c + ((d + (e + x)) + y))
  {
  }

  method AddOptional(ghost base: string, text: string, ghost written: seq<string>, name: string, value: Option<string>)
      returns (longer: string, ghost written': seq<string>)
    requires text == Append(base, written) + "|"
    ensures longer == Append(base, written') + "|" && written' == written + OptToken(name, value)
  {
    longer, written' := text, written;
    if value.Some? {
      longer, written' := AddToken(base, text, written, name + value.value);
    }
  }

  method AddLabels(ghost base: string, text: string, ghost written: seq<string>, sorted: seq<Uuid>)
      returns (longer: string, ghost written': seq<string>)
    requires text == Append(base, written) + "|"
    ensures longer == Append(base, written') + "|" && written' == written + LabelTokens(sorted)
  {
    longer, written' := text, written;
    for i := 0 to |sorted|
      invariant written' == written + LabelTokens(sorted[..i])
      invariant longer == Append(base, written') + "|"
    {
      LabelTokensSnoc(sorted[..i], sorted[i]);
      assert sorted[..i + 1] == sorted[..i] + [sorted[i]];
      longer, written' := AddToken(base, longer, written', "label=" + sorted[i].text);
    }
    assert sorted[..|sorted|] == sorted;
  }

  method AddPagination(ghost base: string, text: string, ghost written: seq<string>, p: Pagination) returns (longer: string)
    requires text == Append(base, written) + "|"
    ensures longer == Append(base, written + PaginationTokens(p))
  {
    ghost var all;
    longer, all := AddToken(base, text, written, "page=" + Decimal(p.page));
    longer, all := AddToken(base, longer, all, "size=" + Decimal(p.pageSize));
    longer, all := AddToken(base, longer, all, "sort=" + p.sortBy);
    AppendOne(base, all, "desc=" + BoolText(p.sortDesc));
    longer := longer + ("desc=" + BoolText(p.sortDesc));
    assert all + ["desc=" + BoolText(p.sortDesc)] == written + PaginationTokens(p);
  }

  method AddToken(ghost base: string, text: string, ghost written: seq<string>, token: string)
      returns (longer: string, ghost written': seq<string>)
    requires text == Append(base, written) + "|"
    ensures longer == Append(base, written') + "|" && written' == written + [token]
  {
    AppendOne(base, written, token);
    longer, written' := text + token + "|", written + [token];
  }

  lemma {:induction false} LabelTokensSnoc(labels: seq<Uuid>, x: Uuid)
    ensures LabelTokens(labels + [x]) == LabelTokens(labels) + ["label=" + x.text]
  {
    if labels != [] {
      LabelTokensSnoc(labels[1..], x);
      assert (labels + [x])[1..] == labels[1..] + [x];
    }
  }
}
