/** The canonical signature of a set of variant options, and what it identifies. */
module VariantSignature {
  import opened Base

  const SEPARATOR := '|'

  /** White space and line ends as String.prototype.trim strips them. */
  predicate IsSpace(c: char) {
    || c == ' ' || '\U{0009}' <= c <= '\U{000D}' || c == '\U{00A0}' || c == '\U{1680}'
    || '\U{2000}' <= c <= '\U{200A}' || c == '\U{2028}' || c == '\U{2029}' || c == '\U{202F}'
    || c == '\U{205F}' || c == '\U{3000}' || c == '\U{FEFF}'
  }

  /** The characters stripped, by code point. */
  lemma SpacesByCodePoint(c: char)
    ensures var code := c as int;
      IsSpace(c) <==> (
        code == 9 || code == 10 || code == 11 || code == 12 || code == 13 || code == 32 || code == 160 || code == 5760
        || 8192 <= code <= 8202 || code == 8232 || code == 8233 || code == 8239 || code == 8287 || code == 12288 || code == 65279)
  {
  }

  function TrimStart(s: string): (r: string)
    ensures forall c :: c in r ==> c in s
    ensures r != [] ==> !IsSpace(r[0])
  {
    if s != [] && IsSpace(s[0]) then TrimStart(s[1..]) else s
  }

  function TrimEnd(s: string): (r: string)
    ensures r <= s
    ensures r != [] ==> !IsSpace(r[|r| - 1])
  {
    if s != [] && IsSpace(s[|s| - 1]) then TrimEnd(s[..|s| - 1]) else s
  }

  function Trim(s: string): (r: string)
    ensures forall c :: c in r ==> c in s
    ensures r != [] ==> !IsSpace(r[0]) && !IsSpace(r[|r| - 1])
  {
    TrimEnd(TrimStart(s))
  }

  function Trimmed(ids: seq<Id>): seq<Id> {
    if ids == [] then []
    else
      var id := Trim(ids[0]);
      (if id != [] then [id] else []) + Trimmed(ids[1..])
  }

  /** A set in insertion order: each element where it first occurs. */
  function Distinct(ids: seq<Id>): seq<Id> {
    if ids == [] then []
    else
      var n := |ids| - 1;
      Distinct(ids[..n]) + (if ids[n] in ids[..n] then [] else [ids[n]])
  }

  function Insert(id: Id, ids: seq<Id>): seq<Id> {
    if ids == [] || Less(id, ids[0]) then [id] + ids else [ids[0]] + Insert(id, ids[1..])
  }

  function Sort(ids: seq<Id>): seq<Id> {
    if ids == [] then [] else Insert(ids[0], Sort(ids[1..]))
  }

  function Join(ids: seq<Id>): string {
    if ids == [] then [] else if |ids| == 1 then ids[0] else ids[0] + [SEPARATOR] + Join(ids[1..])
  }

  function Signature(ids: seq<Id>): string {
    Join(Sort(Distinct(Trimmed(ids))))
  }

  /** What a selection means: the set of its trimmed, non-empty ids. */
  function Selection(ids: seq<Id>): set<Id> {
    set id | id in Trimmed(ids)
  }

  // ---------------------------------------------------------------------------------------------
  // The canonical sequence of a set
  // ---------------------------------------------------------------------------------------------

  predicate Ascending(ids: seq<Id>) {
    forall i, j :: 0 <= i < j < |ids| ==> Less(ids[i], ids[j])
  }

  lemma {:induction false} DistinctIsASet(ids: seq<Id>)
    ensures NoDuplicates(Distinct(ids))
    ensures forall id :: id in Distinct(ids) <==> id in ids
  {
    if ids != [] {
      DistinctIsASet(ids[..|ids| - 1]);
      assert ids == ids[..|ids| - 1] + [ids[|ids| - 1]];
    }
  }

  lemma {:induction false} InsertKeepsAscending(id: Id, ids: seq<Id>)
    requires Ascending(ids) && id !in ids
    ensures Ascending(Insert(id, ids))
    ensures forall x :: x in Insert(id, ids) <==> x == id || x in ids
  {
    if ids != [] && !Less(id, ids[0]) {
      InsertKeepsAscending(id, ids[1..]);
      LessIsTotal(id, ids[0]);
      assert ids == [ids[0]] + ids[1..];
      var rest := Insert(id, ids[1..]);
      forall j | 0 <= j < |rest| ensures Less(ids[0], rest[j]) {
        assert rest[j] == id || rest[j] in ids[1..];
      }
    } else if ids != [] {
      forall j | 0 <= j < |ids| ensures Less(id, ids[j]) {
        if j > 0 { LessIsTransitive(id, ids[0], ids[j]); }
      }
    }
  }

  lemma {:induction false} SortAscends(ids: seq<Id>)
    requires NoDuplicates(ids)
    ensures Ascending(Sort(ids))
    ensures forall x :: x in Sort(ids) <==> x in ids
  {
    if ids != [] {
      SortAscends(ids[1..]);
      assert ids == [ids[0]] + ids[1..];
      InsertKeepsAscending(ids[0], Sort(ids[1..]));
    }
  }

  /** Two ascending sequences of the same ids are the same sequence. */
  lemma {:induction false} AscendingIsUnique(a: seq<Id>, b: seq<Id>)
    requires Ascending(a) && Ascending(b)
    requires forall x :: x in a <==> x in b
    ensures a == b
  {
    assert b != [] ==> b[0] in b;
    if a != [] {
      assert a[0] in b;
      assert b != [] && b[0] in a;
      FirstIsLeast(a, b[0]);
      FirstIsLeast(b, a[0]);
      assert a[0] == b[0];
      forall x ensures x in a[1..] <==> x in b[1..] {
        RestIsOthers(a, x);
        RestIsOthers(b, x);
      }
      AscendingIsUnique(a[1..], b[1..]);
      assert a == [a[0]] + a[1..] && b == [b[0]] + b[1..];
    }
  }

  lemma FirstIsLeast(ids: seq<Id>, id: Id)
    requires Ascending(ids) && id in ids
    ensures id == ids[0] || (Less(ids[0], id) && !Less(id, ids[0]))
  {
    var i :| 0 <= i < |ids| && ids[i] == id;
    if i > 0 {
      LessIsAsymmetric(ids[0], id);
    }
  }

  lemma RestIsOthers(ids: seq<Id>, id: Id)
    requires Ascending(ids) && ids != []
    ensures id in ids[1..] <==> id in ids && id != ids[0]
  {
    if id in ids[1..] {
      var i :| 1 <= i < |ids| && ids[i] == id;
      LessIsAsymmetric(ids[0], id);
    }
    assert ids == [ids[0]] + ids[1..];
  }

  // ---------------------------------------------------------------------------------------------
  // Joining
  // ---------------------------------------------------------------------------------------------

  predicate Joinable(ids: seq<Id>) {
    forall id :: id in ids ==> id != [] && SEPARATOR !in id
  }

  predicate Continues(s: string, separator: char) {
    s == [] || s[0] == separator
  }

  /** The part before the first separator is determined. */
  lemma {:induction false} HeadsAgree(x: string, y: string, u: string, v: string, separator: char)
    requires separator !in x && separator !in y && Continues(u, separator) && Continues(v, separator)
    requires x + u == y + v
    ensures x == y && u == v
    decreases |x|
  {
    assert if x == [] then x + u == u else (x + u)[0] == x[0] && x[0] in x;
    assert if y == [] then y + v == v else (y + v)[0] == y[0] && y[0] in y;
    if x != [] && y != [] {
      assert (x + u)[1..] == x[1..] + u && (y + v)[1..] == y[1..] + v;
      HeadsAgree(x[1..], y[1..], u, v, separator);
      assert x == [x[0]] + x[1..] && y == [y[0]] + y[1..];
    }
  }

  function AfterHead(ids: seq<Id>): string
    requires ids != []
  {
    if |ids| == 1 then [] else [SEPARATOR] + Join(ids[1..])
  }

  lemma {:induction false} JoinIsInjective(a: seq<Id>, b: seq<Id>)
    requires Joinable(a) && Joinable(b) && Join(a) == Join(b)
    ensures a == b
    decreases |a|, 1
  {
    if a != [] {
      assert a[0] in a && Join(a) == a[0] + AfterHead(a);
    }
    if b != [] {
      assert b[0] in b && Join(b) == b[0] + AfterHead(b);
    }
    if a != [] && b != [] {
      HeadsAgree(a[0], b[0], AfterHead(a), AfterHead(b), SEPARATOR);
      RestsAgree(a, b);
    }
  }

  lemma {:induction false} RestsAgree(a: seq<Id>, b: seq<Id>)
    requires a != [] && b != [] && Joinable(a) && Joinable(b) && a[0] == b[0] && AfterHead(a) == AfterHead(b)
    ensures a == b
    decreases |a|, 0
  {
    assert a == [a[0]] + a[1..] && b == [b[0]] + b[1..];
    if |a| > 1 && |b| > 1 {
      assert Join(a[1..]) == AfterHead(a)[1..] && Join(b[1..]) == AfterHead(b)[1..];
      assert forall id :: id in a[1..] ==> id in a;
      assert forall id :: id in b[1..] ==> id in b;
      JoinIsInjective(a[1..], b[1..]);
    }
  }

  // ---------------------------------------------------------------------------------------------
  // Main results
  // ---------------------------------------------------------------------------------------------

  predicate HaveNoSeparator(ids: seq<Id>) {
    forall id :: id in ids ==> SEPARATOR !in id
  }

  lemma {:induction false} TrimmedIsJoinable(ids: seq<Id>)
    requires HaveNoSeparator(ids)
    ensures Joinable(Trimmed(ids))
  {
    if ids != [] {
      assert ids[0] in ids;
      TrimmedIsJoinable(ids[1..]);
    }
  }

  function Canonical(ids: seq<Id>): seq<Id> {
    Sort(Distinct(Trimmed(ids)))
  }

  lemma CanonicalIsTheSelection(ids: seq<Id>)
    ensures Ascending(Canonical(ids))
    ensures forall x :: x in Canonical(ids) <==> x in Selection(ids)
  {
    DistinctIsASet(Trimmed(ids));
    SortAscends(Distinct(Trimmed(ids)));
  }

  /** Two lists have the same signature exactly when they select the same set of ids. */
  lemma SignatureIdentifiesSelection(a: seq<Id>, b: seq<Id>)
    requires HaveNoSeparator(a) && HaveNoSeparator(b)
    ensures Signature(a) == Signature(b) <==> Selection(a) == Selection(b)
  {
    CanonicalIsTheSelection(a);
    CanonicalIsTheSelection(b);
    if Selection(a) == Selection(b) {
      AscendingIsUnique(Canonical(a), Canonical(b));
    }
    if Signature(a) == Signature(b) {
      TrimmedIsJoinable(a);
      TrimmedIsJoinable(b);
      assert Joinable(Canonical(a)) && Joinable(Canonical(b));
      JoinIsInjective(Canonical(a), Canonical(b));
      assert Selection(a) == Selection(b);
    }
  }

  lemma OneIdSignature(id: Id)
    requires id != [] && Trim(id) == id
    ensures Signature([id]) == id && Trimmed([id]) == [id]
  {
    assert [id][1..] == [] && [id][..0] == [];
    assert Trimmed([id]) == [id] && Distinct([id]) == [id] && Sort([id]) == [id];
  }

  lemma TwoIdsSignature(a: Id, b: Id)
    requires a != [] && b != [] && Trim(a) == a && Trim(b) == b && Less(a, b)
    ensures Signature([a, b]) == a + [SEPARATOR] + b && Trimmed([a, b]) == [a, b]
  {
    LessIsAsymmetric(a, b);
    assert [a, b][1..] == [b] && [b][1..] == [] && [a, b][..1] == [a] && [a][..0] == [];
    assert Trimmed([b]) == [b] && Trimmed([a, b]) == [a, b];
    assert Distinct([a]) == [a] && Distinct([a, b]) == [a, b];
    assert Sort([b]) == [b] && Less(a, [b][0]);
    assert Insert(a, [b]) == [a] + [b];
    assert Sort([a, b]) == [a, b];
    assert Join([b]) == b;
  }

  /** With a separator inside an id the signature no longer tells selections apart. */
  lemma SeparatorInAnIdCollides()
    ensures Signature(["a|b"]) == Signature(["a", "b"]) && Selection(["a|b"]) != Selection(["a", "b"])
  {
    assert Trim("a|b") == "a|b" && Trim("a") == "a" && Trim("b") == "b";
    OneIdSignature("a|b");
    TwoIdsSignature("a", "b");
    assert "a|b" in Selection(["a|b"]) && "a|b" !in Selection(["a", "b"]);
  }
}
