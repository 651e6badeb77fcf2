/** The backend's tables (backend/app/models) as sequences of records in
    insertion order, the queries the views run over them, and the invariants
    the schema declares.  UUID keys and users are natural numbers, timestamps
    integers. */
module Records {
  import opened Options
  import opened Text

  type Id = nat
  type UserId = nat
  type Time = int

  /** A `Problem` row: a project. */
  datatype Problem = Problem(
    id: Id, user: UserId, title: string, originalImagePath: string,
    solutionNotes: string, deletedAt: Option<Time>, createdAt: Time, updatedAt: Time)

  /** A `ProblemLatexDocument` row (`source` is always `None`) or an
      `Explanation` row (`source` is `source_problem_latex`). */
  datatype Document = Document(
    id: Id, problem: Id, source: Option<Id>, latexCode: string, pdfPath: string,
    version: int, isConfirmed: bool, createdAt: Time, updatedAt: Time)

  /** A `LatexTemplate` row; `user == None` marks a system template. */
  datatype Template = Template(
    id: Id, user: Option<UserId>, name: string, content: string,
    isDefault: bool, createdAt: Time, updatedAt: Time)

  /** The two document tables. */
  datatype DocKind = ProblemDoc | ExplanationDoc

  /** The placeholder every stored template contains. */
  const PLACEHOLDER := "{children}"

  /** The index of the first element satisfying `p`, as `.get()`/`.first()` find it. */
  function FindIndex<T>(s: seq<T>, p: T -> bool): (r: Option<nat>)
    ensures r.Some? ==> r.value < |s| && p(s[r.value])
    ensures r.Some? ==> forall k :: 0 <= k < r.value ==> !p(s[k])
    ensures r.None? ==> forall k :: 0 <= k < |s| ==> !p(s[k])
  {
    if s == [] then None
    else if p(s[0]) then Some(0)
    else
      match FindIndex(s[1..], p)
      case None => None
      case Some(k) => Some(k + 1)
  }

  /** `.filter(...)`: the elements satisfying `p`, in table order. */
  function Filter<T(!new)>(s: seq<T>, p: T -> bool): (r: seq<T>)
    ensures |r| <= |s|
    ensures forall x :: x in r ==> x in s && p(x)
    ensures forall x :: x in s && p(x) ==> x in r
    ensures r == [] <==> forall x :: x in s ==> !p(x)
    ensures forall x :: multiset(r)[x] == if p(x) then multiset(s)[x] else 0
  {
    if s == [] then []
    else
      assert s == [s[0]] + s[1..];
      (if p(s[0]) then [s[0]] else []) + Filter(s[1..], p)
  }

  /** What `.get(...)` does: the one matching row, `DoesNotExist`, or
      `MultipleObjectsReturned`. */
  datatype GetOutcome<T> = Found(value: T) | Missing | Multiple

  function Get<T(!new)>(s: seq<T>, p: T -> bool): (r: GetOutcome<T>)
    ensures r.Missing? <==> forall x :: x in s ==> !p(x)
    ensures r.Found? ==> r.value in s && p(r.value) && Filter(s, p) == [r.value]
    ensures r.Multiple? ==> |Filter(s, p)| > 1
  {
    var matches := Filter(s, p);
    if |matches| == 0 then Missing
    else if |matches| == 1 then
      assert matches == [matches[0]];
      Found(matches[0])
    else Multiple
  }

  /** `.order_by('-version').first()` over the documents satisfying `p`: one of
      highest version (the earliest of them, should two share it). */
  function Best(docs: seq<Document>, p: Document -> bool): (r: Option<Document>)
    ensures r.Some? <==> exists d :: d in docs && p(d)
    ensures r.Some? ==> r.value in docs && p(r.value)
    ensures r.Some? ==> forall d :: d in docs && p(d) ==> d.version <= r.value.version
  {
    if docs == [] then None
    else
      var rest := Best(docs[1..], p);
      if !p(docs[0]) then rest
      else if rest.Some? && rest.value.version > docs[0].version then rest
      else Some(docs[0])
  }

  /** The latest document of a project. */
  function Latest(docs: seq<Document>, problem: Id): Option<Document> {
    Best(docs, (d: Document) => d.problem == problem)
  }

  /** The latest confirmed document of a project. */
  function LatestConfirmed(docs: seq<Document>, problem: Id): Option<Document> {
    Best(docs, (d: Document) => d.problem == problem && d.isConfirmed)
  }

  /** The problem document an explanation is generated from: the latest
      confirmed one, else the latest one, else none. */
  function SourceFor(problemDocs: seq<Document>, problem: Id): (r: Option<Id>)
    ensures r.Some? <==> exists d :: d in problemDocs && d.problem == problem
    ensures (exists d :: d in problemDocs && d.problem == problem && d.isConfirmed) ==>
      r == Some(LatestConfirmed(problemDocs, problem).value.id)
  {
    match LatestConfirmed(problemDocs, problem)
    case Some(d) => Some(d.id)
    case None =>
      match Latest(problemDocs, problem)
      case Some(d) => Some(d.id)
      case None => None
  }

  /** The source chosen is a document of that project: when one of them is
      confirmed, a confirmed one of highest version among the confirmed;
      otherwise one of highest version. */
  lemma SourceForChoice(problemDocs: seq<Document>, problem: Id)
    ensures SourceFor(problemDocs, problem).Some? ==> HasDocument(problemDocs, SourceFor(problemDocs, problem).value)
    ensures (exists c :: c in problemDocs && c.problem == problem && c.isConfirmed) ==>
      exists d :: d in problemDocs && d.id == SourceFor(problemDocs, problem).value && d.problem == problem && d.isConfirmed &&
        forall c :: c in problemDocs && c.problem == problem && c.isConfirmed ==> c.version <= d.version
    ensures (forall c :: c in problemDocs && c.problem == problem ==> !c.isConfirmed) && SourceFor(problemDocs, problem).Some? ==>
      exists d :: d in problemDocs && d.id == SourceFor(problemDocs, problem).value && d.problem == problem &&
        forall c :: c in problemDocs && c.problem == problem ==> c.version <= d.version
  {
    var confirmed := LatestConfirmed(problemDocs, problem);
    var latest := Latest(problemDocs, problem);
    if confirmed.Some? {
      assert confirmed.value in problemDocs && confirmed.value.problem == problem;
    } else if latest.Some? {
      assert latest.value in problemDocs && latest.value.problem == problem;
    }
  }

  /** `aggregate(Max('version'))['max_version'] or 0`. */
  function MaxVersion(docs: seq<Document>, problem: Id): (m: int)
    ensures forall d :: d in docs && d.problem == problem ==> d.version <= m
    ensures (exists d :: d in docs && d.problem == problem) ==>
      exists d :: d in docs && d.problem == problem && d.version == m
    ensures (forall d :: d in docs ==> d.problem != problem) ==> m == 0
  {
    match Latest(docs, problem)
    case None => 0
    case Some(d) => d.version
  }

  /** A key one past every key in use: stands for `uuid.uuid4()`. */
  function FreshId(ids: seq<Id>): (r: Id)
    ensures forall k :: k in ids ==> k < r
  {
    if ids == [] then 0
    else
      var rest := FreshId(ids[1..]);
      assert ids == [ids[0]] + ids[1..];
      if rest > ids[0] then rest else ids[0] + 1
  }

  function ProblemIds(ps: seq<Problem>): (r: seq<Id>)
    ensures |r| == |ps| && forall i :: 0 <= i < |ps| ==> r[i] == ps[i].id
  {
    seq(|ps|, i requires 0 <= i < |ps| => ps[i].id)
  }

  function DocumentIds(ds: seq<Document>): (r: seq<Id>)
    ensures |r| == |ds| && forall i :: 0 <= i < |ds| ==> r[i] == ds[i].id
  {
    seq(|ds|, i requires 0 <= i < |ds| => ds[i].id)
  }

  function TemplateIds(ts: seq<Template>): (r: seq<Id>)
    ensures |r| == |ts| && forall i :: 0 <= i < |ts| ==> r[i] == ts[i].id
  {
    seq(|ts|, i requires 0 <= i < |ts| => ts[i].id)
  }

  /** A fresh key differs from the key of every row. */
  lemma FreshProblemKey(problems: seq<Problem>)
    ensures forall p :: p in problems ==> p.id != FreshId(ProblemIds(problems))
  {
    forall p | p in problems ensures p.id != FreshId(ProblemIds(problems)) {
      var k :| 0 <= k < |problems| && problems[k] == p;
      assert ProblemIds(problems)[k] == p.id && ProblemIds(problems)[k] in ProblemIds(problems);
    }
  }

  lemma FreshDocumentKey(docs: seq<Document>)
    ensures forall d :: d in docs ==> d.id != FreshId(DocumentIds(docs))
  {
    forall d | d in docs ensures d.id != FreshId(DocumentIds(docs)) {
      var k :| 0 <= k < |docs| && docs[k] == d;
      assert DocumentIds(docs)[k] == d.id && DocumentIds(docs)[k] in DocumentIds(docs);
    }
  }

  predicate Distinct(ids: seq<Id>) {
    forall i, j :: 0 <= i < j < |ids| ==> ids[i] != ids[j]
  }

  /** No two rows of `s` agree on `key`. */
  ghost predicate Unique<T, K>(s: seq<T>, key: T -> K) {
    forall i, j :: 0 <= i < j < |s| ==> key(s[i]) != key(s[j])
  }

  lemma UniqueCons<T, K>(x: T, rest: seq<T>, key: T -> K)
    requires Unique(rest, key)
    requires forall y :: y in rest ==> key(y) != key(x)
    ensures Unique([x] + rest, key)
  {
    var r := [x] + rest;
    forall i, j | 0 <= i < j < |r| ensures key(r[i]) != key(r[j]) {
      assert r[j] == rest[j - 1];
      if i > 0 { assert r[i] == rest[i - 1]; }
    }
  }

  lemma UniqueTail<T, K>(s: seq<T>, key: T -> K)
    requires Unique(s, key) && s != []
    ensures Unique(s[1..], key)
    ensures forall y :: y in s[1..] ==> key(y) != key(s[0])
  {
    var rest := s[1..];
    forall i, j | 0 <= i < j < |rest| ensures key(rest[i]) != key(rest[j]) {
      assert rest[i] == s[i + 1] && rest[j] == s[j + 1];
    }
    forall y | y in rest ensures key(y) != key(s[0]) {
      var m :| 0 <= m < |rest| && rest[m] == y;
      assert s[m + 1] == y;
    }
  }

  /** Rows picked by a filter keep their keys apart. */
  lemma {:induction false} FilterKeepsUnique<T(!new), K>(s: seq<T>, p: T -> bool, key: T -> K)
    requires Unique(s, key)
    ensures Unique(Filter(s, p), key)
  {
    if s != [] {
      UniqueTail(s, key);
      FilterKeepsUnique(s[1..], p, key);
      if p(s[0]) {
        UniqueCons(s[0], Filter(s[1..], p), key);
      }
    }
  }

  /** Rows with keys apart occur once each. */
  lemma {:induction false} UniqueNoDuplicates<T, K>(s: seq<T>, key: T -> K)
    requires Unique(s, key)
    ensures forall x :: multiset(s)[x] <= 1
  {
    if s != [] {
      UniqueTail(s, key);
      UniqueNoDuplicates(s[1..], key);
      assert s == [s[0]] + s[1..];
      assert s[0] !in s[1..];
    }
  }

  /** A value at two positions is counted twice. */
  lemma TwoPositions<T>(s: seq<T>, i: nat, j: nat)
    requires i < j < |s|
    ensures s[i] == s[j] ==> multiset(s)[s[i]] >= 2
  {
    assert s == s[..j] + s[j..];
    assert s[i] == s[..j][i] && s[j] == s[j..][0];
  }

  /** Reordering rows keeps their keys apart. */
  lemma UniquePermutation<T, K>(s: seq<T>, r: seq<T>, key: T -> K)
    requires Unique(s, key)
    requires multiset(r) == multiset(s)
    ensures Unique(r, key)
  {
    UniqueNoDuplicates(s, key);
    forall i, j | 0 <= i < j < |r| ensures key(r[i]) != key(r[j]) {
      TwoPositions(r, i, j);
      assert r[i] != r[j];
      assert r[i] in multiset(s) && r[j] in multiset(s);
      var a :| 0 <= a < |s| && s[a] == r[i];
      var b :| 0 <= b < |s| && s[b] == r[j];
      assert a != b;
      assert key(s[a]) != key(s[b]) by {
        if a > b { assert key(s[b]) != key(s[a]); }
      }
    }
  }

  /** Under unique keys a key names one position. */
  lemma UniqueKeyIndex<T, K>(s: seq<T>, key: T -> K, i: nat, k: nat)
    requires Unique(s, key) && i < |s| && k < |s| && key(s[i]) == key(s[k])
    ensures i == k
  {
    assert !(i < k) && !(k < i);
  }

  /** The rows of `s` without its row `i`, position by position. */
  lemma RemovedAt<T>(s: seq<T>, i: nat)
    requires i < |s|
    ensures |s[..i] + s[i + 1..]| == |s| - 1
    ensures forall k :: 0 <= k < i ==> (s[..i] + s[i + 1..])[k] == s[k]
    ensures forall k :: i < k < |s| ==> (s[..i] + s[i + 1..])[k - 1] == s[k]
  {
  }

  /** Removing one row keeps the keys apart. */
  lemma RemoveKeepsUnique<T, K>(s: seq<T>, i: nat, key: T -> K)
    requires Unique(s, key) && i < |s|
    ensures Unique(s[..i] + s[i + 1..], key)
  {
    var r := s[..i] + s[i + 1..];
    forall k, l | 0 <= k < l < |r| ensures key(r[k]) != key(r[l]) {
      var k' := if k < i then k else k + 1;
      var l' := if l < i then l else l + 1;
      assert r[k] == s[k'] && r[l] == s[l'];
    }
  }

  /** Rewriting one row without changing its key keeps the keys apart. */
  lemma UpdateKeepsUnique<T, K>(s: seq<T>, i: nat, x: T, key: T -> K)
    requires Unique(s, key) && i < |s| && key(x) == key(s[i])
    ensures Unique(s[i := x], key)
  {
    var r := s[i := x];
    forall k, l | 0 <= k < l < |r| ensures key(r[k]) != key(r[l]) {
      assert key(r[k]) == key(s[k]) && key(r[l]) == key(s[l]);
    }
  }

  /** Appending a row with a new key keeps the keys apart. */
  lemma AppendKeepsUnique<T, K>(s: seq<T>, x: T, key: T -> K)
    requires Unique(s, key)
    requires forall k :: 0 <= k < |s| ==> key(s[k]) != key(x)
    ensures Unique(s + [x], key)
  {
    var r := s + [x];
    forall k, l | 0 <= k < l < |r| ensures key(r[k]) != key(r[l]) {
      assert r[k] == s[k];
      if l < |s| { assert r[l] == s[l]; }
    }
  }

  function ProblemKey(p: Problem): Id { p.id }
  function DocumentKey(d: Document): Id { d.id }
  /** The pair `unique_together` keeps apart. */
  function VersionKey(d: Document): (Id, int) { (d.problem, d.version) }

  predicate HasProblem(problems: seq<Problem>, id: Id) {
    exists p :: p in problems && p.id == id
  }

  predicate HasDocument(docs: seq<Document>, id: Id) {
    exists d :: d in docs && d.id == id
  }

  /** Unique primary keys, `unique_together = [["problem", "version"]]`, and
      the CASCADE foreign key to an existing problem. */
  ghost predicate DocumentsValid(docs: seq<Document>, problems: seq<Problem>) {
    Unique(docs, DocumentKey) &&
    Unique(docs, VersionKey) &&
    (forall d :: d in docs ==> HasProblem(problems, d.problem))
  }

  /** The conditional `UniqueConstraint(fields=["user", "is_default"],
      condition=Q(is_default=True))`: at most one default template per user. */
  predicate AtMostOneDefault(ts: seq<Template>) {
    forall i, j :: 0 <= i < j < |ts| && ts[i].isDefault && ts[j].isDefault && ts[i].user.Some? ==>
      ts[i].user != ts[j].user
  }

  /** `max_length` of `LatexTemplate.name`. */
  const TEMPLATE_NAME_MAX_LENGTH := 200

  /** What `full_clean()` demands of one row: a non-blank name within its
      length, content holding the placeholder. */
  predicate TemplateRowValid(t: Template) {
    0 < |t.name| <= TEMPLATE_NAME_MAX_LENGTH && Contains(t.content, PLACEHOLDER)
  }

  /** Row validity depends on the name and the content only. */
  lemma RowValidKept(a: Template, b: Template)
    requires TemplateRowValid(a) && b.name == a.name && b.content == a.content
    ensures TemplateRowValid(b)
  {
  }

  /** The template table as the model's `save()` lets it be stored. */
  predicate TemplatesValid(ts: seq<Template>) {
    Distinct(TemplateIds(ts)) &&
    AtMostOneDefault(ts) &&
    (forall t :: t in ts ==> TemplateRowValid(t))
  }

  /** The whole database. */
  /** The constraints of the three project tables: project keys apart, the
      documents valid against the projects, problem documents without a
      source, and every explanation source naming a problem document. */
  ghost predicate ProjectTablesValid(problems: seq<Problem>, problemDocs: seq<Document>, explanations: seq<Document>) {
    Unique(problems, ProblemKey) &&
    DocumentsValid(problemDocs, problems) &&
    (forall d :: d in problemDocs ==> d.source.None?) &&
    DocumentsValid(explanations, problems) &&
    (forall e :: e in explanations && e.source.Some? ==> HasDocument(problemDocs, e.source.value))
  }

  class Database {
    var problems: seq<Problem>
    var problemDocs: seq<Document>
    var explanations: seq<Document>
    var templates: seq<Template>

    ghost predicate Valid()
      reads this
    {
      ProjectTablesValid(problems, problemDocs, explanations) && TemplatesValid(templates)
    }

    constructor ()
      ensures Valid()
      ensures problems == [] && problemDocs == [] && explanations == [] && templates == []
    {
      problems := [];
      problemDocs := [];
      explanations := [];
      templates := [];
    }

    /** The rows of one document table. */
    function Documents(kind: DocKind): seq<Document>
      reads this
    {
      if kind == ProblemDoc then problemDocs else explanations
    }
  }
}
