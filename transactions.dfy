/** GET /transactions: the caller's log rows, optionally narrowed to one type and to rows whose
    text columns match a `LIKE '%query%'` search, newest first, one page at a time, with the
    count of every matching row. */
module TransactionsRoute {
  import opened Common
  import opened Db

  // ---------------------------------------------------------------------------
  // SQL LIKE
  // ---------------------------------------------------------------------------

  /** `s LIKE p` with `%` (any run), `_` (any one character) and `\` escaping the next
      character; a trailing `\` stands for itself. */
  function Like(s: string, p: string): bool
    decreases |p|, |s|
  {
    if p == [] then s == []
    else if p[0] == '%' then Like(s, p[1..]) || (s != [] && Like(s[1..], p))
    else if p[0] == '_' then s != [] && Like(s[1..], p[1..])
    else if p[0] == '\\' && |p| > 1 then s != [] && s[0] == p[1] && Like(s[1..], p[2..])
    else s != [] && s[0] == p[0] && Like(s[1..], p[1..])
  }

  /** A pattern with none of LIKE's special characters. */
  predicate Plain(q: string) {
    forall k :: 0 <= k < |q| ==> q[k] != '%' && q[k] != '_' && q[k] != '\\'
  }

  lemma {:induction false} PercentMatchesAll(s: string)
    ensures Like(s, "%")
  {
    if s != [] {
      PercentMatchesAll(s[1..]);
    }
  }

  /** A plain pattern followed by `%` matches exactly the strings it is a prefix of. */
  lemma {:induction false} PlainPrefix(s: string, q: string)
    requires Plain(q)
    ensures Like(s, q + "%") <==> |q| <= |s| && s[..|q|] == q
  {
    if q == [] {
      assert q + "%" == "%";
      PercentMatchesAll(s);
    } else {
      assert (q + "%")[1..] == q[1..] + "%";
      assert Plain(q[1..]) by {
        forall k | 0 <= k < |q[1..]| ensures q[1..][k] != '%' && q[1..][k] != '_' && q[1..][k] != '\\' {
          assert q[1..][k] == q[k + 1];
        }
      }
      if s != [] {
        PlainPrefix(s[1..], q[1..]);
        if |q| <= |s| && s[..|q|] == q {
          assert s[1..][..|q| - 1] == s[..|q|][1..];
        }
        if s[0] == q[0] && |q[1..]| <= |s[1..]| && s[1..][..|q[1..]|] == q[1..] {
          assert s[..|q|] == [s[0]] + s[1..][..|q| - 1];
        }
      }
    }
  }

  /** A leading `%` tries every suffix. */
  lemma {:induction false} LeadingPercent(s: string, r: string)
    ensures Like(s, "%" + r) <==> exists k :: 0 <= k <= |s| && Like(s[k..], r)
  {
    assert ("%" + r)[1..] == r;
    if s == [] {
      assert s[0..] == s;
    } else {
      LeadingPercent(s[1..], r);
      if Like(s, "%" + r) {
        if Like(s, r) {
          assert s[0..] == s;
        } else {
          var k :| 0 <= k <= |s[1..]| && Like(s[1..][k..], r);
          assert s[1..][k..] == s[k + 1..];
        }
      }
      if exists k :: 0 <= k <= |s| && Like(s[k..], r) {
        var k :| 0 <= k <= |s| && Like(s[k..], r);
        if k == 0 {
          assert s[0..] == s;
        } else {
          assert s[1..][k - 1..] == s[k..];
        }
      }
    }
  }

  /** For a query without wildcards, `LIKE '%q%'` is substring search. */
  lemma LikeIsContains(s: string, q: string)
    requires Plain(q)
    ensures Like(s, "%" + q + "%") <==> Contains(s, q)
  {
    assert "%" + q + "%" == "%" + (q + "%");
    LeadingPercent(s, q + "%");
    if Like(s, "%" + q + "%") {
      var k :| 0 <= k <= |s| && Like(s[k..], q + "%");
      PlainPrefix(s[k..], q);
      assert s[k..][..|q|] == s[k..k + |q|];
      assert OccursAt(s, q, k);
    }
    if Contains(s, q) {
      var i :| 0 <= i <= |s| - |q| && OccursAt(s, q, i);
      PlainPrefix(s[i..], q);
      assert s[i..][..|q|] == s[i..i + |q|];
    }
  }

  /** Wildcards in the search are not escaped: a query of `_` matches every non-empty text. */
  lemma UnderscoreQueryMatchesAnyText(s: string)
    requires s != []
    ensures Like(s, "%" + "_" + "%")
  {
    assert ("%" + "_" + "%")[1..] == "_%";
    assert "_%"[1..] == "%";
    PercentMatchesAll(s[1..]);
  }

  // ---------------------------------------------------------------------------
  // Building the WHERE clause
  // ---------------------------------------------------------------------------

  /** One conjunct of the WHERE clause. */
  datatype Cond =
    | OwnedBy(user: UserId)        // user_id = ?
    | TypeIs(kind: string)         // type = ?
    | Matches(pattern: string)     // LOWER(type) LIKE ? OR LOWER(credit_source) LIKE ? OR ... (four ?)

  /** The `?` placeholders a conjunct introduces, in order. */
  function Placeholders(c: Cond): seq<string> {
    match c
    case OwnedBy(u) => [u]
    case TypeIs(k) => [k]
    case Matches(p) => [p, p, p, p]
  }

  /** The parameter list a clause needs: each conjunct's placeholders, left to right. */
  function Bind(conds: seq<Cond>): seq<string> {
    if conds == [] then [] else Placeholders(conds[0]) + Bind(conds[1..])
  }

  lemma {:induction false} BindSnoc(conds: seq<Cond>, c: Cond)
    ensures Bind(conds + [c]) == Bind(conds) + Placeholders(c)
  {
    if conds == [] {
      assert [] + [c] == [c];
      assert [c][1..] == [];
    } else {
      assert (conds + [c])[1..] == conds[1..] + [c];
      BindSnoc(conds[1..], c);
    }
  }

  /** `type && type !== "all"`. */
  predicate TypeFiltered(kind: Option<string>) {
    kind.Some? && kind.value != [] && kind.value != "all"
  }

  /** `search && search.trim()`. */
  predicate Searching(search: Option<string>) {
    search.Some? && Trim(search.value) != []
  }

  /** `%${search.toLowerCase()}%` (the untrimmed query). */
  function LikePattern(search: string): string {
    "%" + ToLower(search) + "%"
  }

  function Conditions(user: UserId, kind: Option<string>, search: Option<string>): seq<Cond> {
    [OwnedBy(user)]
    + (if TypeFiltered(kind) then [TypeIs(kind.value)] else [])
    + (if Searching(search) then [Matches(LikePattern(search.value))] else [])
  }

  /** The clause and its parameters, built by appending as the handler does; the parameters
      line up with the placeholders. */
  method BuildWhere(user: UserId, kind: Option<string>, search: Option<string>)
    returns (where: seq<Cond>, params: seq<string>)
    ensures where == Conditions(user, kind, search)
    ensures params == Bind(where)
  {
    where := [OwnedBy(user)];
    params := [user];
    BindSnoc([], OwnedBy(user));
    assert [] + [OwnedBy(user)] == where;
    assert params == Bind(where);
    ghost var typed: seq<Cond> := [];
    if TypeFiltered(kind) {
      typed := [TypeIs(kind.value)];
      BindSnoc(where, TypeIs(kind.value));
      where := where + [TypeIs(kind.value)];
      params := params + [kind.value];
    }
    assert where == [OwnedBy(user)] + typed;
    assert params == Bind(where);
    if Searching(search) {
      var q := LikePattern(search.value);
      BindSnoc(where, Matches(q));
      where := where + [Matches(q)];
      params := params + [q, q, q, q];
    }
  }

  /** How a row meets one conjunct; `format` is `DATE_FORMAT(created_at, '%Y-%m-%d %H:%i:%s')`. */
  predicate Holds(c: Cond, x: Txn, format: int -> string) {
    match c
    case OwnedBy(u) => x.user == u
    case TypeIs(k) => KindName(x.kind) == k
    case Matches(p) =>
      || Like(ToLower(KindName(x.kind)), p)
      || Like(ToLower(SourceName(x.source)), p)
      || Like(IntToString(x.amount), p)
      || Like(format(x.createdAt), p)
  }

  predicate HoldsAll(conds: seq<Cond>, x: Txn, format: int -> string) {
    forall i :: 0 <= i < |conds| ==> Holds(conds[i], x, format)
  }

  function MatchQ(conds: seq<Cond>, format: int -> string): Txn -> bool {
    (x: Txn) => HoldsAll(conds, x, format)
  }

  // ---------------------------------------------------------------------------
  // The listing
  // ---------------------------------------------------------------------------

  datatype Request = Request(page: Option<int>, limit: Option<int>, kind: Option<string>, search: Option<string>)

  datatype Listing =
    | Listed(rows: seq<Txn>, page: int, total: nat)
    | QueryFailed   // LIMIT or OFFSET is negative and the statement is refused

  function PageOf(req: Request): int { if req.page.Some? then req.page.value else 1 }
  function LimitOf(req: Request): int { if req.limit.Some? then req.limit.value else 20 }
  function OffsetOf(req: Request): int { (PageOf(req) - 1) * LimitOf(req) }

  /** `LIMIT limit OFFSET offset` over an ordered result. */
  function Window<T>(s: seq<T>, offset: nat, limit: nat): (w: seq<T>)
    ensures |w| <= limit
    ensures forall k :: 0 <= k < |w| ==> offset + k < |s| && w[k] == s[offset + k]
    ensures |w| == if offset >= |s| then 0 else Min(limit, |s| - offset)
  {
    if offset >= |s| then [] else s[offset..offset + Min(limit, |s| - offset)]
  }

  /** The rows every filter keeps, oldest first. */
  function Matching(log: seq<Txn>, user: UserId, req: Request, format: int -> string): seq<Txn> {
    Filter(log, MatchQ(Conditions(user, req.kind, req.search), format))
  }

  /** Only the caller's rows survive the first conjunct. */
  lemma MatchingIsCallers(log: seq<Txn>, user: UserId, req: Request, format: int -> string)
    ensures forall x :: x in Matching(log, user, req, format) ==> x in log && x.user == user
  {
    var conds := Conditions(user, req.kind, req.search);
    forall x | x in Matching(log, user, req, format) ensures x in log && x.user == user {
      assert MatchQ(conds, format)(x);
      assert Holds(conds[0], x, format);
    }
  }

  /** The route's answer: one page of the matching rows, newest first, and their total count. */
  function ListingOf(log: seq<Txn>, user: UserId, req: Request, format: int -> string): (r: Listing)
    ensures r.QueryFailed? <==> LimitOf(req) < 0 || OffsetOf(req) < 0
    ensures r.Listed? ==>
      && r.page == PageOf(req)
      && r.total == CountWhere(log, MatchQ(Conditions(user, req.kind, req.search), format))
      && |r.rows| == (if OffsetOf(req) >= r.total then 0 else Min(LimitOf(req), r.total - OffsetOf(req)))
      && forall k :: 0 <= k < |r.rows| ==>
           r.rows[k] in log && r.rows[k].user == user && OffsetOf(req) + k < r.total
           && r.rows[k] == Matching(log, user, req, format)[r.total - 1 - (OffsetOf(req) + k)]
  {
    var limit := LimitOf(req);
    var offset := OffsetOf(req);
    if limit < 0 || offset < 0 then QueryFailed
    else
      var matching := Matching(log, user, req, format);
      MatchingIsCallers(log, user, req, format);
      var rows := Window(Reverse(matching), offset, limit);
      NewestFirstWindow(matching, offset, limit);
      Listed(rows, PageOf(req), |matching|)
  }

  /** A window of the reversed rows reads them from the newest end. */
  lemma NewestFirstWindow<T>(s: seq<T>, offset: nat, limit: nat)
    ensures var w := Window(Reverse(s), offset, limit);
      forall k :: 0 <= k < |w| ==> offset + k < |s| && w[k] == s[|s| - 1 - (offset + k)] && w[k] in s
  {
  }

  /** With a type filter every row listed has that type; without one no row is dropped for its type. */
  lemma TypeFilterApplies(log: seq<Txn>, user: UserId, req: Request, format: int -> string, x: Txn)
    ensures TypeFiltered(req.kind) && x in Matching(log, user, req, format) ==> KindName(x.kind) == req.kind.value
    ensures !TypeFiltered(req.kind) ==> forall c :: c in Conditions(user, req.kind, req.search) ==> !c.TypeIs?
  {
    if TypeFiltered(req.kind) && x in Matching(log, user, req, format) {
      var conds := Conditions(user, req.kind, req.search);
      assert MatchQ(conds, format)(x);
      assert Holds(conds[1], x, format);
    }
  }

  /** A blank search adds no condition, so every row of the caller of the right type counts. */
  lemma BlankSearchKeepsAll(log: seq<Txn>, user: UserId, req: Request, format: int -> string, x: Txn)
    requires !Searching(req.search) && !TypeFiltered(req.kind)
    ensures x in Matching(log, user, req, format) <==> x in log && x.user == user
  {
    var conds := Conditions(user, req.kind, req.search);
    assert conds == [OwnedBy(user)];
    if x in log && x.user == user {
      assert MatchQ(conds, format)(x);
    }
    if x in Matching(log, user, req, format) {
      assert MatchQ(conds, format)(x);
      assert Holds(conds[0], x, format);
    }
  }

  /** A search without wildcard characters keeps a row exactly when its lowercased type or
      source, its amount as text, or its formatted timestamp contains the lowercased query. */
  lemma SearchIsSubstring(x: Txn, search: string, format: int -> string)
    requires Plain(ToLower(search))
    ensures Holds(Matches(LikePattern(search)), x, format) <==>
      || Contains(ToLower(KindName(x.kind)), ToLower(search))
      || Contains(ToLower(SourceName(x.source)), ToLower(search))
      || Contains(IntToString(x.amount), ToLower(search))
      || Contains(format(x.createdAt), ToLower(search))
  {
    var q := ToLower(search);
    LikeIsContains(ToLower(KindName(x.kind)), q);
    LikeIsContains(ToLower(SourceName(x.source)), q);
    LikeIsContains(IntToString(x.amount), q);
    LikeIsContains(format(x.createdAt), q);
  }

  /** The total does not depend on the page or the limit. */
  lemma TotalIgnoresPaging(log: seq<Txn>, user: UserId, req: Request, req': Request, format: int -> string)
    requires req.kind == req'.kind && req.search == req'.search
    requires ListingOf(log, user, req, format).Listed? && ListingOf(log, user, req', format).Listed?
    ensures ListingOf(log, user, req, format).total == ListingOf(log, user, req', format).total
  {
  }

  /** Two consecutive pages hold the rows of one page twice as long. */
  lemma {:induction false} ConsecutivePagesTile<T>(s: seq<T>, offset: nat, limit: nat)
    ensures Window(s, offset, limit) + Window(s, offset + limit, limit) == Window(s, offset, 2 * limit)
  {
    var a, b, c := Window(s, offset, limit), Window(s, offset + limit, limit), Window(s, offset, 2 * limit);
    assert |a + b| == |c|;
    forall k | 0 <= k < |c| ensures (a + b)[k] == c[k] {
      if k < |a| {
        assert (a + b)[k] == a[k];
      } else {
        assert (a + b)[k] == b[k - |a|];
      }
    }
  }
}
