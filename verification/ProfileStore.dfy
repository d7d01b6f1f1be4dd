/** The profile records: what a link or a transfer request makes of the records as read
    (services/indexer/src/indexer.ts), and when no two profiles share a route. */
module ProfileStore {
  import opened Options
  import opened Numerals
  import opened Texts
  import opened ProfileNames

  /** `page` stands for the fields a transfer carries over to a merged record, `own` for those it
      does not. */
  datatype Record = Record(slug: string, fullName: string, source: Source, owner: string, collection: Option<string>,
                           page: string, own: string)

  datatype Identity = Identity(fullName: string, source: Source, owner: string, collection: Option<string>)

  function IdOf(r: Record): Identity { Identity(r.fullName, r.source, r.owner, r.collection) }

  /** `verified` is the answer of the identity check, `collectionOwner` the recorded owner of the
      selected collection. */
  datatype Request =
    | Link(source: Source, ownerAddress: Option<string>, session: Option<string>, name: string, verified: bool,
           routeSlug: Option<string>, collectionAddress: Option<string>, collectionOwner: Option<string>, collectionOnly: bool,
           page: Option<string>, own: Option<string>)
    | Transfer(slug: Option<string>, currentOwner: Option<string>, newOwner: Option<string>, session: Option<string>)

  datatype Outcome = Written(records: seq<Record>) | Answered(status: nat)

  // ----- the file -----

  /** A stored record as it is read: the slug is always the one of its full name. */
  function ReadRecord(r: Record): Option<Record> {
    if !IsAddress(Lower(r.owner)) then None
    else
      match NormalizeProfileInput(if r.fullName != "" then r.fullName else r.slug, r.source)
      case None => None
      case Some(n) =>
        var collection := Normal(r.collection);
        Some(r.(slug := n.slug, fullName := n.fullName, owner := Lower(r.owner),
                collection := if IsAddress(collection) then Some(collection) else None))
  }

  function ReadRecords(file: seq<Record>): seq<Record> {
    if file == [] then []
    else
      match ReadRecord(file[0])
      case None => ReadRecords(file[1..])
      case Some(r) => [r] + ReadRecords(file[1..])
  }

  /** What the source's searches compare. */
  datatype Key = ById(id: Identity) | ByOwner(slug: string, owner: string) | ByRoute(slug: string, id: Identity)

  predicate Matches(r: Record, key: Key) {
    match key
    case ById(id) => IdOf(r) == id
    case ByOwner(slug, owner) => r.slug == slug && r.owner == owner
    case ByRoute(slug, id) => r.slug == slug && IdOf(r) == id
  }

  function Without(records: seq<Record>, key: Key): seq<Record> {
    if records == [] then []
    else if Matches(records[0], key) then Without(records[1..], key)
    else [records[0]] + Without(records[1..], key)
  }

  function Find(records: seq<Record>, key: Key): Option<Record> {
    if records == [] then None
    else if Matches(records[0], key) then Some(records[0])
    else Find(records[1..], key)
  }

  /** Stable sorting by full name, in character order. */
  function Insert(r: Record, sorted: seq<Record>): seq<Record> {
    if sorted == [] || LexLe(r.fullName, sorted[0].fullName) then [r] + sorted
    else [sorted[0]] + Insert(r, sorted[1..])
  }

  function Sort(records: seq<Record>): seq<Record> {
    if records == [] then [] else Insert(records[0], Sort(records[1..]))
  }

  // ----- linking -----

  function CollectionOf(q: Request): Option<string>
    requires q.Link?
  {
    if Normal(q.collectionAddress) == "" then None else Some(Normal(q.collectionAddress))
  }

  function FinalSlug(q: Request, n: Name): string
    requires q.Link?
  {
    if OrEmpty(q.routeSlug) != "" && NormalizeRouteSlug(q.routeSlug.value).Some? then NormalizeRouteSlug(q.routeSlug.value).value
    else n.slug
  }

  function LinkIdentity(q: Request, n: Name): Identity
    requires q.Link?
  {
    Identity(n.fullName, q.source, Normal(q.ownerAddress), CollectionOf(q))
  }

  /** The checks before the records are read: a status when one fails. */
  function LinkCheck(q: Request): Option<nat>
    requires q.Link?
  {
    var owner, route, collection := Normal(q.ownerAddress), OrEmpty(q.routeSlug), Normal(q.collectionAddress);
    var name := NormalizeProfileInput(q.name, q.source);
    if !IsAddress(owner) then Some(400)
    else if q.session != Some(owner) then Some(401)
    else if q.source.Wallet? && (Lower(q.name) != owner || (route != "" && route != owner)) then Some(400)
    else if name.None? then Some(400)
    else if !q.source.Wallet? && !q.verified then Some(403)
    else if route != "" && NormalizeRouteSlug(route).None? then Some(400)
    else if collection != "" && !IsAddress(collection) then Some(400)
    else if q.collectionOnly && collection == "" then Some(400)
    else if collection != "" && q.collectionOwner.None? then Some(404)
    else if collection != "" && Lower(q.collectionOwner.value) != owner then Some(403)
    else if q.collectionOnly then Some(200)
    else None
  }

  predicate SlugTaken(records: seq<Record>, slug: string, id: Identity) {
    exists r :: r in records && r.slug == slug && IdOf(r) != id
  }

  function LinkedRecord(current: seq<Record>, q: Request, n: Name): Record
    requires q.Link?
  {
    var id := LinkIdentity(q, n);
    var existing := Find(current, ById(id));
    Record(FinalSlug(q, n), n.fullName, q.source, id.owner, id.collection,
           if q.page.Some? then q.page.value else if existing.Some? then existing.value.page else "",
           if q.own.Some? then q.own.value else if existing.Some? then existing.value.own else "")
  }

  function LinkOutcome(current: seq<Record>, q: Request): Outcome
    requires q.Link?
  {
    if LinkCheck(q).Some? then Answered(LinkCheck(q).value)
    else
      var n := NormalizeProfileInput(q.name, q.source).value;
      var id := LinkIdentity(q, n);
      if SlugTaken(current, FinalSlug(q, n), id) then Answered(409)
      else Written(Sort(Without(current, ById(id)) + [LinkedRecord(current, q, n)]))
  }

  // ----- transferring -----

  function TransferOutcome(current: seq<Record>, q: Request): Outcome
    requires q.Transfer?
  {
    var slug := NormalizeRouteSlug(OrEmpty(q.slug));
    var from, to := Normal(q.currentOwner), Normal(q.newOwner);
    if slug.None? || !IsAddress(from) then Answered(400)
    else if q.session != Some(from) then Answered(401)
    else if !IsAddress(to) || from == to then Answered(400)
    else
      match Find(current, ByOwner(slug.value, from))
      case None => Answered(404)
      case Some(target) => Written(Moved(current, target, to))
  }

  function Duplicate(current: seq<Record>, target: Record, to: string): Option<Record> {
    Find(current, ByRoute(target.slug, IdOf(target).(owner := to)))
  }

  function Moved(current: seq<Record>, target: Record, to: string): seq<Record> {
    var others := Without(current, ByRoute(target.slug, IdOf(target)));
    match Duplicate(current, target, to)
    case None => Sort(others + [target.(owner := to)])
    case Some(d) =>
      Sort(Without(others, ByRoute(d.slug, IdOf(d))) + [d.(page := target.page)])
  }

  function OutcomeOf(current: seq<Record>, q: Request): Outcome {
    if q.Link? then LinkOutcome(current, q) else TransferOutcome(current, q)
  }

  /** The file after a request that worked on these records. */
  function ApplyTo(current: seq<Record>, file: seq<Record>, q: Request): seq<Record> {
    match OutcomeOf(current, q)
    case Written(records) => records
    case Answered(_) => file
  }

  /** One request, read and write included. */
  function Apply(file: seq<Record>, q: Request): seq<Record> { ApplyTo(ReadRecords(file), file, q) }

  // ----- routes -----

  predicate HasSlug(records: seq<Record>, slug: string) {
    exists r :: r in records && r.slug == slug
  }

  /** No two records share a slug. */
  predicate Distinct(records: seq<Record>) {
    records == [] || (!HasSlug(records[1..], records[0].slug) && Distinct(records[1..]))
  }

  lemma {:induction false} DistinctPairs(records: seq<Record>)
    ensures Distinct(records) <==> forall i, j | 0 <= i < j < |records| :: records[i].slug != records[j].slug
  {
    if records != [] {
      var rest := records[1..];
      DistinctPairs(rest);
      assert forall i | 0 <= i < |rest| :: rest[i] == records[i + 1];
      if Distinct(records) {
        forall i, j | 0 <= i < j < |records|
          ensures records[i].slug != records[j].slug
        {
          assert rest[j - 1] == records[j] && rest[j - 1] in rest;
          if i > 0 {
            assert rest[i - 1] == records[i];
          }
        }
      }
      if forall i, j | 0 <= i < j < |records| :: records[i].slug != records[j].slug {
        forall r | r in rest
          ensures r.slug != records[0].slug
        {
          var i :| 0 <= i < |rest| && rest[i] == r;
          assert records[i + 1] == r;
        }
        forall i, j | 0 <= i < j < |rest|
          ensures rest[i].slug != rest[j].slug
        {
          assert rest[i] == records[i + 1] && rest[j] == records[j + 1];
        }
      }
    }
  }

  /** Reading the record gives it again. */
  predicate Fixed(records: seq<Record>) {
    forall r | r in records :: ReadRecord(r) == Some(r)
  }

  lemma {:induction false} FixedReads(records: seq<Record>)
    requires Fixed(records)
    ensures ReadRecords(records) == records
  {
    hide ReadRecord;
    if records != [] {
      FixedReads(records[1..]);
    }
  }

  lemma {:induction false} WithoutMembers(records: seq<Record>, key: Key)
    ensures forall r :: r in Without(records, key) <==> r in records && !Matches(r, key)
    ensures Distinct(records) ==> Distinct(Without(records, key))
  {
    hide Matches;
    if records != [] {
      WithoutMembers(records[1..], key);
      assert records == [records[0]] + records[1..];
      if !Matches(records[0], key) {
        assert ([records[0]] + Without(records[1..], key))[1..] == Without(records[1..], key);
      }
    }
  }

  lemma {:induction false} FindFinds(records: seq<Record>, key: Key)
    ensures match Find(records, key)
            case Some(r) => r in records && Matches(r, key)
            case None => forall r | r in records :: !Matches(r, key)
  {
    hide Matches;
    if records != [] {
      FindFinds(records[1..], key);
    }
  }

  lemma {:induction false} InsertMembers(r: Record, sorted: seq<Record>)
    ensures forall x :: x in Insert(r, sorted) <==> x == r || x in sorted
  {
    hide LexLe;
    if sorted != [] {
      InsertMembers(r, sorted[1..]);
      assert sorted == [sorted[0]] + sorted[1..];
    }
  }

  lemma {:induction false} SortMembers(records: seq<Record>)
    ensures forall x :: x in Sort(records) <==> x in records
  {
    hide LexLe;
    if records != [] {
      SortMembers(records[1..]);
      InsertMembers(records[0], Sort(records[1..]));
      assert records == [records[0]] + records[1..];
    }
  }

  /** Sorting keeps every record, as often as it is there, and leaves the full names in order. */
  lemma {:induction false} SortSorts(records: seq<Record>)
    ensures multiset(Sort(records)) == multiset(records)
    ensures forall i | 0 < i < |Sort(records)| :: LexLe(Sort(records)[i - 1].fullName, Sort(records)[i].fullName)
  {
    hide LexLe, Insert;
    if records != [] {
      SortSorts(records[1..]);
      InsertSorts(records[0], Sort(records[1..]));
      assert records == [records[0]] + records[1..];
    }
  }

  lemma {:induction false} InsertSorts(r: Record, sorted: seq<Record>)
    requires forall i | 0 < i < |sorted| :: LexLe(sorted[i - 1].fullName, sorted[i].fullName)
    ensures multiset(Insert(r, sorted)) == multiset(sorted) + multiset{r}
    ensures forall i | 0 < i < |Insert(r, sorted)| :: LexLe(Insert(r, sorted)[i - 1].fullName, Insert(r, sorted)[i].fullName)
    ensures Insert(r, sorted)[0] == r || (sorted != [] && Insert(r, sorted)[0] == sorted[0])
  {
    hide LexLe;
    if sorted != [] {
      var rest := sorted[1..];
      assert sorted == [sorted[0]] + rest;
      if !LexLe(r.fullName, sorted[0].fullName) {
        LexLeTotal(r.fullName, sorted[0].fullName);
        forall i | 0 < i < |rest|
          ensures LexLe(rest[i - 1].fullName, rest[i].fullName)
        {
          assert rest[i] == sorted[i + 1] && rest[i - 1] == sorted[i];
        }
        InsertSorts(r, rest);
        assert rest != [] ==> sorted[1] == rest[0];
      }
    }
  }

  lemma {:induction false} LexLeTotal(a: string, b: string)
    ensures LexLe(a, b) || LexLe(b, a)
  {
    if a != [] && b != [] && a[0] == b[0] {
      LexLeTotal(a[1..], b[1..]);
    }
  }

  lemma {:induction false} ReadMembers(file: seq<Record>)
    ensures forall x :: x in ReadRecords(file) <==> exists r :: r in file && ReadRecord(r) == Some(x)
  {
    hide ReadRecord;
    if file != [] {
      ReadMembers(file[1..]);
      assert file == [file[0]] + file[1..];
    }
  }

  lemma {:induction false} ReadConcat(a: seq<Record>, b: seq<Record>)
    ensures ReadRecords(a + b) == ReadRecords(a) + ReadRecords(b)
  {
    hide ReadRecord;
    if a == [] {
      assert a + b == b;
    } else {
      ReadConcat(a[1..], b);
      assert (a + b)[1..] == a[1..] + b;
    }
  }

  /** Where a record is put among the others does not matter for the slugs. */
  lemma {:induction false} InsertDistinct(r: Record, sorted: seq<Record>)
    ensures Distinct(ReadRecords(Insert(r, sorted))) <==> Distinct(ReadRecords([r] + sorted))
  {
    hide ReadRecord, LexLe;
    if sorted != [] && !LexLe(r.fullName, sorted[0].fullName) {
      var rest := sorted[1..];
      InsertDistinct(r, rest);
      InsertMembers(r, rest);
      ReadMembers(Insert(r, rest));
      ReadMembers(sorted);
      ReadMembers(rest);
      ReadSwap(r, sorted[0], rest, Insert(r, rest));
      assert [r] + sorted == [r] + ([sorted[0]] + rest);
    }
  }

  lemma ReadSwap(r: Record, s: Record, rest: seq<Record>, inserted: seq<Record>)
    requires Distinct(ReadRecords(inserted)) <==> Distinct(ReadRecords([r] + rest))
    requires forall x :: x in inserted <==> x == r || x in rest
    ensures Distinct(ReadRecords([s] + inserted)) <==> Distinct(ReadRecords([r] + ([s] + rest)))
  {
    hide ReadRecord;
    ReadMembers(inserted);
    ReadMembers(rest);
    assert ([s] + inserted)[1..] == inserted && ([r] + ([s] + rest))[1..] == [s] + rest;
    assert ([s] + rest)[1..] == rest && ([r] + rest)[1..] == rest;
    SlugSwap(ReadRecord(r), ReadRecord(s), ReadRecords(rest), ReadRecords(inserted));
  }

  function Cons(r: Option<Record>, rest: seq<Record>): seq<Record> {
    if r.Some? then [r.value] + rest else rest
  }

  lemma ConsDistinct(r: Option<Record>, rest: seq<Record>)
    ensures Distinct(Cons(r, rest)) <==> Distinct(rest) && (r.Some? ==> !HasSlug(rest, r.value.slug))
    ensures forall slug :: HasSlug(Cons(r, rest), slug) <==> HasSlug(rest, slug) || (r.Some? && r.value.slug == slug)
  {
    if r.Some? {
      assert Cons(r, rest)[1..] == rest;
    }
  }

  lemma SlugSwap(r: Option<Record>, s: Option<Record>, rest: seq<Record>, inserted: seq<Record>)
    requires Distinct(inserted) <==> Distinct(Cons(r, rest))
    requires forall x :: x in inserted <==> x in Cons(r, rest)
    ensures Distinct(Cons(s, inserted)) <==> Distinct(Cons(r, Cons(s, rest)))
  {
    hide Distinct;
    ConsDistinct(s, inserted);
    ConsDistinct(r, rest);
    ConsDistinct(s, rest);
    ConsDistinct(r, Cons(s, rest));
    assert forall slug :: HasSlug(inserted, slug) <==> HasSlug(Cons(r, rest), slug);
  }

  lemma {:induction false} SortDistinct(records: seq<Record>)
    ensures Distinct(ReadRecords(Sort(records))) <==> Distinct(ReadRecords(records))
  {
    hide ReadRecord, LexLe;
    if records != [] {
      var rest := records[1..];
      SortDistinct(rest);
      InsertDistinct(records[0], Sort(rest));
      SortMembers(rest);
      ReadMembers(rest);
      ReadMembers(Sort(rest));
      ConsDistinct(ReadRecord(records[0]), ReadRecords(rest));
      ConsDistinct(ReadRecord(records[0]), ReadRecords(Sort(rest)));
      assert ([records[0]] + Sort(rest))[1..] == Sort(rest);
    }
  }

  lemma {:induction false} SnocDistinct(records: seq<Record>, r: Record)
    ensures Distinct(records + [r]) <==> Distinct(records) && !HasSlug(records, r.slug)
  {
    if records == [] {
      assert records + [r] == [r];
    } else {
      SnocDistinct(records[1..], r);
      assert (records + [r])[1..] == records[1..] + [r];
      assert records == [records[0]] + records[1..];
    }
  }

  /** A record written behind others that read back as themselves: the routes stay distinct
      exactly when none of them has the slug under which the new one is read back. */
  lemma AppendedDistinctIff(others: seq<Record>, r: Record)
    requires Fixed(others) && Distinct(others)
    ensures Distinct(ReadRecords(Sort(others + [r]))) <==>
            (ReadRecord(r).Some? ==> !HasSlug(others, ReadRecord(r).value.slug))
  {
    hide ReadRecord, Sort;
    SortDistinct(others + [r]);
    ReadConcat(others, [r]);
    FixedReads(others);
    assert [r][1..] == [];
    if ReadRecord(r).Some? {
      assert ReadRecords([r]) == [ReadRecord(r).value];
      SnocDistinct(others, ReadRecord(r).value);
    } else {
      assert others + [] == others;
    }
  }

  // ----- requests keep the routes distinct -----

  lemma AddressKept(address: Option<string>)
    requires IsAddress(Normal(address))
    ensures var a := Normal(address); Lower(a) == a && Normal(Some(a)) == a
  {
    hide Trim;
    RawShape(OrEmpty(address));
    LowerTextKept(Normal(address));
    RawKept(Normal(address));
  }

  lemma NoAddress()
    ensures Normal(None) == "" && !IsAddress("")
  {}

  /** How a linked record is read back. */
  lemma LinkedReads(current: seq<Record>, q: Request, n: Name)
    requires q.Link? && LinkCheck(q).None? && NormalizeProfileInput(q.name, q.source) == Some(n)
    ensures var r := LinkedRecord(current, q, n);
      ReadRecord(r) ==
      match NormalizeProfileInput(n.fullName, q.source)
      case None => None
      case Some(back) => Some(r.(slug := back.slug, fullName := back.fullName))
  {
    hide NormalizeProfileInput, Normal, Find, IsAddress, NormalizeRouteSlug;
    FullNameNonEmpty(q.name, q.source);
    AddressKept(q.ownerAddress);
    NoAddress();
    if Normal(q.collectionAddress) != "" {
      AddressKept(q.collectionAddress);
    }
  }

  lemma OthersTaken(current: seq<Record>, id: Identity, slug: string)
    ensures HasSlug(Without(current, ById(id)), slug) <==> SlugTaken(current, slug, id)
  {
    WithoutMembers(current, ById(id));
  }

  /** After an accepted link the routes, as they are read, are distinct exactly when no other
      identity's record has the slug under which the new record is read back: the conflict check
      looks at the requested slug instead. */
  lemma LinkDistinctIff(current: seq<Record>, q: Request, n: Name)
    requires Fixed(current) && Distinct(current)
    requires q.Link? && NormalizeProfileInput(q.name, q.source) == Some(n) && LinkOutcome(current, q).Written?
    ensures var back := NormalizeProfileInput(n.fullName, q.source);
      Distinct(ReadRecords(LinkOutcome(current, q).records)) <==>
      (back.Some? ==> !SlugTaken(current, back.value.slug, LinkIdentity(q, n)))
  {
    hide NormalizeProfileInput, ReadRecord, Sort, ReadRecords, Distinct, LinkCheck, LinkedRecord, LinkIdentity, FinalSlug,
         Without, HasSlug, SlugTaken;
    var id := LinkIdentity(q, n);
    var others := Without(current, ById(id));
    WithoutMembers(current, ById(id));
    LinkedReads(current, q, n);
    var back := NormalizeProfileInput(n.fullName, q.source);
    if back.Some? {
      OthersTaken(current, id, back.value.slug);
    }
    AppendedDistinctIff(others, LinkedRecord(current, q, n));
  }

  /** No route override, and a name that reads back as itself. */
  predicate Plain(q: Request) {
    q.Link? ==>
      match NormalizeProfileInput(q.name, q.source)
      case None => true
      case Some(n) => FinalSlug(q, n) == n.slug && Stable(n, q.source)
  }

  lemma PlainLinkKeeps(current: seq<Record>, q: Request)
    requires Fixed(current) && Distinct(current) && q.Link?
    ensures Plain(q) && LinkOutcome(current, q).Written? ==>
              var next := LinkOutcome(current, q).records; Fixed(next) && Distinct(next)
  {
    hide NormalizeProfileInput, ReadRecord, Sort, ReadRecords, Distinct, LinkCheck, LinkIdentity, FinalSlug, Without;
    if Plain(q) && LinkOutcome(current, q).Written? {
      CheckedName(q);
      var n := NormalizeProfileInput(q.name, q.source).value;
      var id, r := LinkIdentity(q, n), LinkedRecord(current, q, n);
      LinkDistinctIff(current, q, n);
      LinkedReads(current, q, n);
      WithoutMembers(current, ById(id));
      var next := Sort(Without(current, ById(id)) + [r]);
      SortMembers(Without(current, ById(id)) + [r]);
      FixedReads(next);
    }
  }

  lemma CheckedName(q: Request)
    requires q.Link?
    ensures LinkCheck(q).None? ==> NormalizeProfileInput(q.name, q.source).Some?
  {
    hide NormalizeProfileInput, Normal, IsAddress, NormalizeRouteSlug;
  }

  lemma {:induction false} OneRecordPerSlug(records: seq<Record>, r: Record, s: Record)
    requires Distinct(records) && r in records && s in records && r.slug == s.slug
    ensures r == s
  {
    if r in records[1..] && s in records[1..] {
      OneRecordPerSlug(records[1..], r, s);
    }
  }

  /** While the routes are distinct there is never a record to merge with. */
  lemma NeverMerges(current: seq<Record>, target: Record, to: string)
    requires Distinct(current) && target in current && target.owner != to
    ensures Duplicate(current, target, to).None?
  {
    hide Distinct, Find;
    FindFinds(current, ByRoute(target.slug, IdOf(target).(owner := to)));
    if Duplicate(current, target, to).Some? {
      OneRecordPerSlug(current, target, Duplicate(current, target, to).value);
    }
  }

  /** The record a transfer is about. */
  function Target(current: seq<Record>, q: Request): Option<Record>
    requires q.Transfer?
  {
    match NormalizeRouteSlug(OrEmpty(q.slug))
    case None => None
    case Some(slug) => Find(current, ByOwner(slug, Normal(q.currentOwner)))
  }

  /** A transfer is written exactly for a signed-in owner who names another address and has a record at
      the slug. */
  lemma TransferWrittenIff(current: seq<Record>, q: Request)
    requires q.Transfer?
    ensures TransferOutcome(current, q).Written? <==>
            var slug := NormalizeRouteSlug(OrEmpty(q.slug));
            var from, to := Lower(Trim(OrEmpty(q.currentOwner))), Lower(Trim(OrEmpty(q.newOwner)));
            && slug.Some? && IsAddress(from) && q.session == Some(from) && IsAddress(to) && from != to
            && exists r :: r in current && r.slug == slug.value && r.owner == from
  {
    hide NormalizeRouteSlug, IsAddress, Trim, Find, Moved;
    var slug := NormalizeRouteSlug(OrEmpty(q.slug));
    if slug.Some? {
      FindFinds(current, ByOwner(slug.value, Normal(q.currentOwner)));
    }
  }

  /** A transfer hands over exactly the record at the slug: every other record stays, no route
      appears or disappears, and the routes stay distinct. */
  lemma TransferHandsOver(current: seq<Record>, q: Request)
    requires Fixed(current) && Distinct(current) && q.Transfer?
    ensures match TransferOutcome(current, q)
            case Answered(_) => true
            case Written(next) =>
              exists target | target in current ::
                var moved := target.(owner := Lower(Trim(OrEmpty(q.newOwner))));
                && target.owner == Lower(Trim(OrEmpty(q.currentOwner)))
                && Some(target.slug) == NormalizeRouteSlug(OrEmpty(q.slug))
                && (forall r :: r in next <==> (r in current && r != target) || r == moved)
                && (forall slug :: HasSlug(next, slug) <==> HasSlug(current, slug))
                && Fixed(next) && Distinct(next)
  {
    hide NormalizeProfileInput, ReadRecord, Sort, ReadRecords, Distinct, Without, Find, Trim, IsAddress, Duplicate,
         NormalizeRouteSlug;
    if TransferOutcome(current, q).Written? {
      var from, to := Normal(q.currentOwner), Normal(q.newOwner);
      var target := Target(current, q).value;
      FindFinds(current, ByOwner(NormalizeRouteSlug(OrEmpty(q.slug)).value, from));
      NeverMerges(current, target, to);
      AddressKept(q.newOwner);
      MovedHandsOver(current, target, to);
      assert target in current;
    }
  }

  lemma MovedHandsOver(current: seq<Record>, target: Record, to: string)
    requires Fixed(current) && Distinct(current) && target in current && Duplicate(current, target, to).None?
    requires IsAddress(to) && Lower(to) == to
    ensures var next, moved := Moved(current, target, to), target.(owner := to);
      && (forall r :: r in next <==> (r in current && r != target) || r == moved)
      && (forall slug :: HasSlug(next, slug) <==> HasSlug(current, slug))
      && Fixed(next) && Distinct(next)
  {
    hide NormalizeProfileInput, ReadRecord, Sort, ReadRecords, Distinct, Without, Duplicate, IsAddress;
    var key := ByRoute(target.slug, IdOf(target));
    var others := Without(current, key);
    var moved := target.(owner := to);
    WithoutMembers(current, key);
    forall r | r in current
      ensures Matches(r, key) <==> r == target
    {
      if Matches(r, key) {
        OneRecordPerSlug(current, r, target);
      }
    }
    SortMembers(others + [moved]);
    NewOwnerReads(target, to);
    OthersLackSlug(current, target, others);
    AppendedDistinctIff(others, moved);
    FixedReads(Sort(others + [moved]));
  }

  lemma NewOwnerReads(target: Record, to: string)
    requires ReadRecord(target) == Some(target) && IsAddress(to) && Lower(to) == to
    ensures ReadRecord(target.(owner := to)) == Some(target.(owner := to))
  {
    hide NormalizeProfileInput, Normal, IsAddress;
  }

  lemma OthersLackSlug(current: seq<Record>, target: Record, others: seq<Record>)
    requires Distinct(current) && target in current && forall r :: r in others <==> r in current && r != target
    ensures !HasSlug(others, target.slug)
  {
    hide Distinct;
    forall r | r in others
      ensures r.slug != target.slug
    {
      if r.slug == target.slug {
        OneRecordPerSlug(current, r, target);
      }
    }
  }

  /** A link is written exactly for a signed-in owner who may use the name, the route and the
      collection it asks for, at a route no other identity has. */
  lemma LinkWrittenIff(current: seq<Record>, q: Request)
    requires q.Link?
    ensures LinkOutcome(current, q).Written? <==>
            var owner, route := Lower(Trim(OrEmpty(q.ownerAddress))), OrEmpty(q.routeSlug);
            var collection, name := Lower(Trim(OrEmpty(q.collectionAddress))), NormalizeProfileInput(q.name, q.source);
            && IsAddress(owner) && q.session == Some(owner) && name.Some?
            && (if q.source.Wallet? then Lower(q.name) == owner && (route == "" || route == owner) else q.verified)
            && (route == "" || NormalizeRouteSlug(route).Some?)
            && !q.collectionOnly
            && (collection == "" || (IsAddress(collection) && q.collectionOwner.Some? && Lower(q.collectionOwner.value) == owner))
            && forall r | r in current && r.slug == (if route == "" then name.value.slug else NormalizeRouteSlug(route).value) ::
                 r.fullName == name.value.fullName && r.source == q.source && r.owner == owner &&
                 r.collection == if collection == "" then None else Some(collection)
  {
    hide NormalizeProfileInput, IsAddress, NormalizeRouteSlug, Trim;
  }

  /** An accepted link leaves every other identity's records alone and one record of its own, at the
      chosen route; what the request does not say is kept from the identity's earlier record. */
  lemma LinkReplacesOne(current: seq<Record>, q: Request, n: Name)
    requires Fixed(current) && Distinct(current) && q.Link? && NormalizeProfileInput(q.name, q.source) == Some(n)
    ensures match LinkOutcome(current, q)
            case Answered(_) => true
            case Written(next) =>
              var owner, collection := Lower(Trim(OrEmpty(q.ownerAddress))), Lower(Trim(OrEmpty(q.collectionAddress)));
              exists r | r in next ::
                && r.fullName == n.fullName && r.source == q.source && r.owner == owner
                && r.collection == (if collection == "" then None else Some(collection))
                && (OrEmpty(q.routeSlug) == "" ==> r.slug == n.slug)
                && (OrEmpty(q.routeSlug) != "" ==> Some(r.slug) == NormalizeRouteSlug(OrEmpty(q.routeSlug)))
                && (forall s | s in next && s != r ::
                      s in current && !(s.fullName == r.fullName && s.source == r.source && s.owner == r.owner &&
                                        s.collection == r.collection))
                && (forall s | s in current && !(s.fullName == r.fullName && s.source == r.source && s.owner == r.owner &&
                                                 s.collection == r.collection) :: s in next)
                && (q.page.Some? ==> r.page == q.page.value) && (q.own.Some? ==> r.own == q.own.value)
                && (forall s | s in current && s.fullName == r.fullName && s.source == r.source && s.owner == r.owner &&
                               s.collection == r.collection ::
                      (q.page.None? ==> r.page == s.page) && (q.own.None? ==> r.own == s.own))
  {
    hide NormalizeProfileInput, ReadRecord, Sort, Distinct, LinkCheck, Without, Find, Fixed, NormalizeRouteSlug, Trim;
    if LinkOutcome(current, q).Written? {
      CheckedRoute(q);
      var id, r := LinkIdentity(q, n), LinkedRecord(current, q, n);
      WithoutMembers(current, ById(id));
      SortMembers(Without(current, ById(id)) + [r]);
      FindFinds(current, ById(id));
      forall s | s in current && IdOf(s) == id
        ensures Find(current, ById(id)) == Some(s)
      {
        SameIdentitySameSlug(current, s, Find(current, ById(id)).value);
      }
      assert r in LinkOutcome(current, q).records;
    }
  }

  lemma CheckedRoute(q: Request)
    requires q.Link?
    ensures LinkCheck(q).None? && OrEmpty(q.routeSlug) != "" ==> NormalizeRouteSlug(OrEmpty(q.routeSlug)).Some?
  {
    hide NormalizeProfileInput, Normal, IsAddress, NormalizeRouteSlug;
  }

  lemma SameIdentitySameSlug(records: seq<Record>, r: Record, s: Record)
    requires Fixed(records) && Distinct(records) && r in records && s in records && IdOf(r) == IdOf(s)
    ensures r == s
  {
    hide NormalizeProfileInput, Distinct, IsAddress, Normal;
    assert ReadRecord(r) == Some(r) && ReadRecord(s) == Some(s);
    if r.fullName != "" {
      OneRecordPerSlug(records, r, s);
    } else {
      FullNameNonEmpty(r.slug, r.source);
    }
  }

  /** Where two records did share a route, a transfer to the owner of the other merges them: both
      go, and the other comes back with the transferred page. */
  lemma MergeReplacesBoth(current: seq<Record>, target: Record, to: string)
    requires Duplicate(current, target, to).Some?
    ensures var d, next := Duplicate(current, target, to).value, Moved(current, target, to);
      && d in current && d.slug == target.slug && IdOf(d) == IdOf(target).(owner := to)
      && forall r :: r in next <==>
           (r in current && !(r.slug == target.slug && (IdOf(r) == IdOf(target) || IdOf(r) == IdOf(d)))) || r == d.(page := target.page)
  {
    hide Sort, Without, Find;
    var key := ByRoute(target.slug, IdOf(target));
    FindFinds(current, ByRoute(target.slug, IdOf(target).(owner := to)));
    var d := Duplicate(current, target, to).value;
    var others := Without(current, key);
    WithoutMembers(current, key);
    WithoutMembers(others, ByRoute(d.slug, IdOf(d)));
    SortMembers(Without(others, ByRoute(d.slug, IdOf(d))) + [d.(page := target.page)]);
  }

  /** Every plain request, accepted or refused, keeps the stored routes distinct, even one that
      worked on no records at all. */
  lemma RequestKeepsRoutes(current: seq<Record>, file: seq<Record>, q: Request)
    requires Fixed(file) && Distinct(file) && Fixed(current) && Distinct(current) && Plain(q)
    ensures Fixed(ApplyTo(current, file, q)) && Distinct(ApplyTo(current, file, q))
  {
    hide Fixed, Distinct, ReadRecords, LinkOutcome, TransferOutcome, Plain;
    if OutcomeOf(current, q).Written? {
      if q.Link? {
        PlainLinkKeeps(current, q);
      } else {
        TransferHandsOver(current, q);
      }
    }
  }

  /** A subname gets the site's suffix, with or without it in the request; a wallet name is its address. */
  lemma OneLabelReads(a: string)
    requires Trimmed(a) && LowerText(a) && |a| < |SUFFIX|
    ensures NormalizeProfileInput(a, NftfactorySubname) == Some(Name(a, a + ".nftfactory.eth"))
    ensures NormalizeProfileInput(a + ".nftfactory.eth", NftfactorySubname) == Some(Name(a, a + ".nftfactory.eth"))
  {
    hide NormalizeSubname, Trim, LowerChar;
    RawKept(a);
    PlainLabel(a);
    Suffixed(a);
  }

  lemma WalletReads(a: string)
    requires Trimmed(a) && LowerText(a)
    ensures NormalizeProfileInput(a, Wallet) == if IsAddress(a) then Some(Name(a, a)) else None
  {
    hide Trim, IsAddress;
    RawKept(a);
  }

  /** The route of any other name is its labels in reverse order. */
  lemma TwoLabelsRead(a: string, b: string)
    requires Trimmed(a) && LowerText(a) && '.' !in a && |a| < |SUFFIX|
    requires Trimmed(b) && LowerText(b) && '.' !in b && |b| < |SUFFIX|
    ensures NormalizeProfileInput(a + "." + b, Ens) == Some(Name(b + "." + a, a + "." + b))
    ensures NormalizeProfileInput(a + "." + b, ExternalSubname) == Some(Name(b + "." + a, a + "." + b))
    ensures NormalizeRouteSlug(b + "." + a) == Some(b + "." + a)
  {
    hide NormalizeSubname, NameOfLabels, Clean, Trim, LowerChar, LowerText, Trimmed;
    PlainLabel(a);
    PlainLabel(b);
    NonEmptyLabel(a);
    NonEmptyLabel(b);
    TwoLabels(a, b);
    DottedRaw(a, b);
    DottedRaw(b, a);
    TwoSplit(b, a);
    RouteIsClean(a, b);
  }

  lemma NonEmptyLabel(a: string)
    requires Trimmed(a)
    ensures a != ""
  {}

  lemma DottedRaw(a: string, b: string)
    requires Trimmed(a) && LowerText(a) && Trimmed(b) && LowerText(b)
    ensures Lower(Trim(a + "." + b)) == a + "." + b
  {
    hide Trim, LowerChar;
    var name := a + "." + b;
    assert name[0] == a[0] && name[|name| - 1] == b[|b| - 1];
    assert forall i | 0 <= i < |name| :: name[i] == if i < |a| then a[i] else if i == |a| then '.' else b[i - |a| - 1];
    DotIsLower();
    RawKept(name);
  }

  lemma DotIsLower()
    ensures LowerChar('.') == '.' && !IsSpace('.')
  {}

  lemma RouteIsClean(a: string, b: string)
    requires Trimmed(a) && Trimmed(b) && '.' !in a && '.' !in b
    ensures Clean(b + "." + a) == b + "." + a
  {
    CleanKept(b + "." + a);
  }

  lemma Suffixed(a: string)
    requires Trimmed(a) && LowerText(a) && |a| < |SUFFIX|
    ensures NormalizeSubname(a + ".nftfactory.eth") == a && Lower(Trim(a + ".nftfactory.eth")) == a + ".nftfactory.eth"
  {
    hide Trim;
    var s := a + SUFFIX;
    assert LowerText(SUFFIX) && !IsSpace(SUFFIX[|SUFFIX| - 1]);
    assert s[0] == a[0] && s[|s| - 1] == SUFFIX[|SUFFIX| - 1];
    assert forall i | 0 <= i < |s| :: s[i] == if i < |a| then a[i] else SUFFIX[i - |a|];
    RawKept(s);
    assert s[|s| - |SUFFIX|..] == SUFFIX && s[..|s| - |SUFFIX|] == a;
  }

  // ----- where the routes collide -----

  function Account(digit: char): string { "0x" + seq(40, _ => digit) }

  const ALICE: string := Account('1')
  const ALICES_COLLECTION: string := Account('2')

  /** Alice, signed in, links a name that the identity check has resolved to her. */
  function AlicesLink(name: string, collection: Option<string>, routeSlug: Option<string>): Request {
    Link(Ens, Some(ALICE), Some(ALICE), name, true, routeSlug, collection, Some(ALICE), false, None, None)
  }

  lemma {:induction false} NoDotSplit(s: string)
    requires '.' !in s
    ensures Split(s) == [s]
  {
    if s != "" {
      NoDotSplit(s[1..]);
      assert s == [s[0]] + s[1..];
    }
  }

  lemma {:induction false} TwoSplit(a: string, b: string)
    requires '.' !in a && '.' !in b
    ensures Split(a + "." + b) == [a, b]
  {
    var s := a + "." + b;
    if a == "" {
      NoDotSplit(b);
      assert s[1..] == b;
    } else {
      TwoSplit(a[1..], b);
      assert s[1..] == a[1..] + "." + b;
      assert a == [a[0]] + a[1..];
    }
  }

  /** A name of two valid labels. */
  lemma TwoLabels(a: string, b: string)
    requires a != "" && b != "" && '.' !in a && '.' !in b && NormalizeSubname(a) != "" && NormalizeSubname(b) != ""
    ensures NameOfLabels(a + "." + b) == Some(Name(b + "." + a, a + "." + b)) && Clean(a + "." + b) == a + "." + b
  {
    hide NormalizeSubname, Split, Clean;
    TwoSplit(a, b);
    assert [a, b][1..] == [b] && [b][1..] == [];
    assert NonEmpty([b]) == [b] + NonEmpty([]);
    assert NonEmpty([a, b]) == [a, b];
    assert JoinReversed([a, b]) == b + "." + a by {
      assert [a, b][1..] == [b];
    }
    CleanKept(a + "." + b);
  }

  lemma PlainLabel(s: string)
    requires Trimmed(s) && LowerText(s) && |s| < |SUFFIX|
    ensures NormalizeSubname(s) == s
  {
    RawKept(s);
  }

  lemma OneLabelRoute(s: string)
    requires Trimmed(s) && LowerText(s) && |s| < |SUFFIX| && '.' !in s
    ensures NormalizeRouteSlug(s) == Some(s)
  {
    hide NormalizeSubname, Split, Clean;
    RawKept(s);
    PlainLabel(s);
    NoDotSplit(s);
    CleanKept(s);
  }

  lemma AliceEth()
    ensures NormalizeProfileInput("alice.eth", Ens) == Some(Name("eth.alice", "alice.eth"))
  {
    hide NormalizeSubname, NameOfLabels, Clean, Trim;
    RawKept("alice.eth");
    PlainLabel("alice");
    PlainLabel("eth");
    TwoLabels("alice", "eth");
    assert "alice" + "." + "eth" == "alice.eth" && "eth" + "." + "alice" == "eth.alice";
  }

  /** JavaScript trims the byte order mark; ENS normalisation drops it, so the marked name
      resolves as the plain one does. */
  const MARK: string := "\U{FEFF}"

  lemma MarkTrims(s: string)
    requires Trimmed(s)
    ensures Trim(MARK + s) == s
  {
    hide TrimEnd;
    var t := MARK + s;
    assert IsSpace(t[0]) && t[1..] == s;
    assert TrimStart(t) == TrimStart(s) == s;
    NothingToTrim(s);
  }

  lemma MarkedAliceEth()
    ensures NormalizeProfileInput("." + MARK + "alice.eth", Ens) == Some(Name("eth." + MARK + "alice", MARK + "alice.eth"))
    ensures NormalizeProfileInput(MARK + "alice.eth", Ens) == Some(Name("eth.alice", "alice.eth"))
  {
    hide NormalizeSubname, NameOfLabels, Clean, Trim, NormalizeProfileInput;
    MarkedLabel();
    PlainLabel("eth");
    TwoLabels(MARK + "alice", "eth");
    assert MARK + "alice" + "." + "eth" == MARK + "alice.eth" && "eth" + "." + (MARK + "alice") == "eth." + MARK + "alice";
    MarkedRaw();
    AliceEth();
    SameRawSameName("." + MARK + "alice.eth", MARK + "alice.eth");
    MarkTrims("alice.eth");
    NothingToTrim("alice.eth");
    assert Trim(MARK + "alice.eth") == Trim("alice.eth");
  }

  lemma SameRawSameName(name: string, fullName: string)
    requires Lower(Trim(name)) == name && Clean(name) == fullName && name != ""
    ensures NormalizeProfileInput(name, Ens) == NameOfLabels(fullName)
    ensures forall s, t | Trim(s) == Trim(t) :: NormalizeProfileInput(s, Ens) == NormalizeProfileInput(t, Ens)
  {
    hide Trim, Clean, NameOfLabels;
  }

  lemma MarkedLabel()
    ensures NormalizeSubname(MARK + "alice") == "alice" && '.' !in MARK + "alice"
  {
    MarkTrims("alice");
    LowerTextKept("alice");
  }

  lemma MarkedRaw()
    ensures var name := "." + MARK + "alice.eth"; Lower(Trim(name)) == name && Clean(name) == MARK + "alice.eth"
  {
    hide Trim;
    var name := "." + MARK + "alice.eth";
    RawKept(name);
    CollapseKept(name);
    assert name[1..] == MARK + "alice.eth";
  }

  lemma AccountReads(digit: char)
    requires '0' <= digit <= '9'
    ensures var a := Account(digit); IsAddress(a) && Normal(Some(a)) == a && Lower(a) == a
  {
    var a := Account(digit);
    assert a[..2] == "0x" && forall i | 2 <= i < 42 :: a[i] == digit;
    RawKept(a);
    LowerTextKept(a);
  }

  /** Into an empty file, Alice's plain link is written as it stands. */
  lemma FirstLink()
    ensures var q := AlicesLink("alice.eth", None, None);
      && LinkOutcome([], q).Written? && Apply([], q) == AlicesFile()
      && Fixed(AlicesFile()) && Distinct(AlicesFile())
  {
    hide Normal, NormalizeProfileInput, IsAddress, Sort, LinkCheck;
    AccountReads('1');
    NoAddress();
    AliceEth();
    var q, n := AlicesLink("alice.eth", None, None), Name("eth.alice", "alice.eth");
    FirstCheck(q);
    assert LinkedRecord([], q, n) == AlicesFile()[0];
    OneSorted(AlicesFile()[0]);
    assert Without([], ById(LinkIdentity(q, n))) + [AlicesFile()[0]] == AlicesFile();
    assert AlicesFile()[1..] == [];
  }

  function AlicesFile(): seq<Record> { [Record("eth.alice", "alice.eth", Ens, ALICE, None, "", "")] }

  lemma FirstCheck(q: Request)
    requires q == AlicesLink("alice.eth", None, None)
    ensures LinkCheck(q).None?
  {
    hide Normal, NormalizeProfileInput, IsAddress;
    AccountReads('1');
    NoAddress();
    AliceEth();
  }

  lemma OneSorted(r: Record)
    ensures Sort([r]) == [r]
  {
    assert [r][1..] == [];
    assert Insert(r, Sort([])) == [r];
  }

  /** Alice links "alice.eth" a second time, with a collection and a route of her choice: both
      links are accepted, and when the records are read the next time both profiles have one route. */
  lemma OverrideSharesRoute()
    ensures var file := Apply([], AlicesLink("alice.eth", None, None));
      var q := AlicesLink("alice.eth", Some(ALICES_COLLECTION), Some("shop"));
      && LinkOutcome([], AlicesLink("alice.eth", None, None)).Written? && LinkOutcome(ReadRecords(file), q).Written?
      && !Distinct(ReadRecords(Apply(file, q)))
  {
    hide Normal, NormalizeProfileInput, NormalizeRouteSlug, IsAddress, Sort, ReadRecords, Distinct, Without, ReadRecord, Fixed;
    var file := Apply([], AlicesLink("alice.eth", None, None));
    var q := AlicesLink("alice.eth", Some(ALICES_COLLECTION), Some("shop"));
    FirstLink();
    FixedReads(file);
    AccountReads('1');
    AccountReads('2');
    NoAddress();
    AliceEth();
    OneLabelRoute("shop");
    assert file[0] in file;
    assert "shop" != "eth.alice" by { assert "shop"[0] != "eth.alice"[0]; }
    LinkDistinctIff(file, q, Name("eth.alice", "alice.eth"));
  }

  /** So does, without any choice of route, her link of the same name with a mark and a leading dot. */
  lemma DotSharesRoute()
    ensures var file := Apply([], AlicesLink("alice.eth", None, None));
      var q := AlicesLink("." + MARK + "alice.eth", None, None);
      && LinkOutcome([], AlicesLink("alice.eth", None, None)).Written? && LinkOutcome(ReadRecords(file), q).Written?
      && !Distinct(ReadRecords(Apply(file, q)))
  {
    hide Normal, NormalizeProfileInput, NormalizeRouteSlug, IsAddress, Sort, ReadRecords, Distinct, Without, ReadRecord, Fixed;
    var file := Apply([], AlicesLink("alice.eth", None, None));
    var q := AlicesLink("." + MARK + "alice.eth", None, None);
    FirstLink();
    FixedReads(file);
    AccountReads('1');
    NoAddress();
    MarkedAliceEth();
    assert file[0] in file;
    assert |"eth." + MARK + "alice"| != |"eth.alice"| && |MARK + "alice.eth"| != |"alice.eth"|;
    LinkDistinctIff(file, q, Name("eth." + MARK + "alice", MARK + "alice.eth"));
  }
}
