/** The index of open requests: keys and their inverse, and the stored list newest first. */
module RequestIndex {
  import opened Wrappers
  import opened Digits
  import opened StableSort

  /** A request's identity. `sourceId` is absent for a bare trade number. */
  datatype Ref = Ref(sourceId: Option<string>, tradeN: nat)

  const MAX_SAFE_INTEGER := 0x1F_FFFF_FFFF_FFFF

  function SourceOf(ref: Ref): string {
    if ref.sourceId.Some? then ref.sourceId.value else ""
  }

  function RefKey(ref: Ref): string {
    SourceOf(ref) + "#" + Show(ref.tradeN)
  }

  function BeforeHash(s: string): string {
    if s == "" || s[0] == '#' then "" else [s[0]] + BeforeHash(s[1..])
  }

  lemma {:induction false} BeforeHashIsPrefix(s: string)
    ensures BeforeHash(s) <= s && '#' !in BeforeHash(s)
    ensures |BeforeHash(s)| < |s| ==> s[|BeforeHash(s)|] == '#'
  {
    if s != "" && s[0] != '#' {
      BeforeHashIsPrefix(s[1..]);
    }
  }

  /** `^([^#]*)#(\d+)$`, a safe positive number, an empty source read as none. */
  function ParseRefKey(key: string): Option<Ref> {
    BeforeHashIsPrefix(key);
    var source := BeforeHash(key);
    if |source| == |key| then None
    else
      var digits := key[|source| + 1..];
      if digits == "" || !AllDigits(digits) then None
      else
        var n := Value(digits);
        if n > MAX_SAFE_INTEGER || n < 1 then None
        else Some(Ref(if source == "" then None else Some(source), n))
  }

  lemma {:induction false} BeforeHashFound(source: string, rest: string)
    requires '#' !in source
    ensures BeforeHash(source + "#" + rest) == source
  {
    var s := source + "#" + rest;
    if source != "" {
      BeforeHashFound(source[1..], rest);
      assert s[1..] == source[1..] + "#" + rest;
      assert source == [source[0]] + source[1..];
    }
  }

  predicate Keyable(ref: Ref) {
    '#' !in SourceOf(ref) && ref.sourceId != Some("") && 1 <= ref.tradeN < 9_007_199_254_740_992
  }

  /** A key reads back as its ref exactly for a positive number under 2^53 and a source without '#'. */
  lemma KeyReadsBackIff(ref: Ref)
    ensures ParseRefKey(RefKey(ref)) == Some(ref) <==> Keyable(ref)
  {
    ShowIsCanonical(ref.tradeN);
    var key, source := RefKey(ref), SourceOf(ref);
    BeforeHashIsPrefix(key);
    if '#' !in source {
      BeforeHashFound(source, Show(ref.tradeN));
      assert key[|source| + 1..] == Show(ref.tradeN);
    }
  }

  lemma DigitsAtTheEnd(ref: Ref, i: nat)
    requires |SourceOf(ref)| <= i < |RefKey(ref)|
    ensures RefKey(ref)[i] == '#' <==> i == |SourceOf(ref)|
  {
    ShowIsCanonical(ref.tradeN);
    var digits := Show(ref.tradeN);
    assert RefKey(ref) == SourceOf(ref) + "#" + digits;
    if i > |SourceOf(ref)| {
      assert RefKey(ref)[i] == digits[i - |SourceOf(ref)| - 1];
    }
  }

  /** Two refs share a key only when they share the source, an empty one counting as none, and the
      number: whatever the source ids contain. */
  lemma KeysAreInjective(a: Ref, b: Ref)
    ensures RefKey(a) == RefKey(b) <==> SourceOf(a) == SourceOf(b) && a.tradeN == b.tradeN
  {
    if RefKey(a) == RefKey(b) {
      var m, n := |SourceOf(a)|, |SourceOf(b)|;
      DigitsAtTheEnd(a, if m < n then n else m);
      DigitsAtTheEnd(b, if m < n then n else m);
      ShowIsCanonical(a.tradeN);
      ShowIsCanonical(b.tradeN);
      assert RefKey(a)[..m] == SourceOf(a) && RefKey(b)[..n] == SourceOf(b);
      assert RefKey(a)[m + 1..] == Show(a.tradeN) && RefKey(b)[n + 1..] == Show(b.tradeN);
    }
  }

  function AfterHash(s: string): string {
    BeforeHashIsPrefix(s);
    if |BeforeHash(s)| == |s| then "" else s[|BeforeHash(s)| + 1..]
  }

  /** The other way round: of the texts that are read as a ref, the ref's own key is exactly the one whose
      number is written without leading zeros. */
  lemma KeyTextIsItsOwnIff(key: string)
    requires ParseRefKey(key).Some?
    ensures RefKey(ParseRefKey(key).value) == key <==> Canonical(AfterHash(key))
  {
    var source := BeforeHash(key);
    BeforeHashIsPrefix(key);
    var digits, ref := AfterHash(key), ParseRefKey(key).value;
    assert key == source + "#" + digits && SourceOf(ref) == source;
    ShowIsCanonical(ref.tradeN);
    assert RefKey(ref)[|source| + 1..] == Show(ref.tradeN) && key[|source| + 1..] == digits;
    if Canonical(digits) {
      CanonicalIsShown(digits);
    }
  }

  // ----- the stored list

  /** An entry of the stored array: a bare number, an object, or anything else. A field of the wrong
      type reads as None. */
  datatype Item = Bare(n: int) | Object(sourceId: Option<string>, tradeN: Option<int>) | Other

  /** What the storage holds under the index key. */
  datatype Stored = Absent | Unreadable | NotAnArray | Array(items: seq<Item>)

  function Keys(refs: seq<Ref>): set<string> {
    set i | 0 <= i < |refs| :: RefKey(refs[i])
  }

  /** The first ref of each key, in order. */
  function Unique(refs: seq<Ref>): seq<Ref> {
    if refs == [] then []
    else
      var front, last := refs[..|refs| - 1], refs[|refs| - 1];
      if RefKey(last) in Keys(front) then Unique(front) else Unique(front) + [last]
  }

  function NewestFirst(refs: seq<Ref>): seq<Ref> {
    SortFalling(refs, (ref: Ref) => ref.tradeN)
  }

  function ItemOf(ref: Ref): Item {
    Object(ref.sourceId, Some(ref.tradeN))
  }

  function Recognized(item: Item): seq<Ref> {
    match item
    case Bare(n) => if n >= 1 then [Ref(None, n)] else []
    case Object(sourceId, Some(n)) => if n >= 1 then [Ref(sourceId, n)] else []
    case _ => []
  }

  function AllRecognized(items: seq<Item>): seq<Ref> {
    if items == [] then [] else AllRecognized(items[..|items| - 1]) + Recognized(items[|items| - 1])
  }

  function Serialized(refs: seq<Ref>): Stored {
    var sorted := NewestFirst(Unique(refs));
    Array(seq(|sorted|, i requires 0 <= i < |sorted| => ItemOf(sorted[i])))
  }

  function Parsed(stored: Stored): seq<Ref> {
    if stored.Array? then NewestFirst(Unique(AllRecognized(stored.items))) else []
  }

  lemma DeduplicateOne(refs: seq<Ref>, i: nat)
    requires i < |refs|
    ensures Keys(refs[..i + 1]) == Keys(refs[..i]) + {RefKey(refs[i])}
    ensures Unique(refs[..i + 1])
            == if RefKey(refs[i]) in Keys(refs[..i]) then Unique(refs[..i]) else Unique(refs[..i]) + [refs[i]]
  {
    assert refs[..i + 1] == refs[..i] + [refs[i]];
    KeysOfAppend(refs[..i], refs[i]);
    UniqueOfAppend(refs[..i], refs[i]);
  }

  /** The first ref of each key: the loop both directions share. */
  method Deduplicate(refs: seq<Ref>) returns (unique: seq<Ref>)
    ensures unique == Unique(refs)
  {
    var seen: set<string> := {};
    unique := [];
    for i := 0 to |refs|
      invariant seen == Keys(refs[..i])
      invariant unique == Unique(refs[..i])
    {
      var k := RefKey(refs[i]);
      DeduplicateOne(refs, i);
      if k !in seen {
        seen := seen + {k};
        unique := unique + [refs[i]];
      }
    }
    assert refs[..|refs|] == refs;
  }

  method SerializeRequestIndex(refs: seq<Ref>) returns (stored: Stored)
    ensures stored == Serialized(refs)
  {
    var unique := Deduplicate(refs);
    unique := NewestFirst(unique);
    stored := Array(seq(|unique|, i requires 0 <= i < |unique| => ItemOf(unique[i])));
  }

  method ParseRequestIndex(stored: Stored) returns (refs: seq<Ref>)
    ensures refs == Parsed(stored)
  {
    if !stored.Array? {
      return [];
    }
    var items := stored.items;
    refs := [];
    for i := 0 to |items|
      invariant refs == AllRecognized(items[..i])
    {
      assert items[..i + 1][..i] == items[..i];
      match items[i] {
        case Bare(n) => if n >= 1 { refs := refs + [Ref(None, n)]; }
        case Object(sourceId, Some(n)) => if n >= 1 { refs := refs + [Ref(sourceId, n)]; }
        case _ =>
      }
    }
    assert items[..|items|] == items;
    refs := Deduplicate(refs);
    refs := NewestFirst(refs);
  }

  ghost predicate DistinctKeys(refs: seq<Ref>) {
    forall i, j | 0 <= i < j < |refs| :: RefKey(refs[i]) != RefKey(refs[j])
  }

  lemma {:induction false} UniqueKeepsKeys(refs: seq<Ref>)
    ensures Keys(Unique(refs)) == Keys(refs)
  {
    if refs != [] {
      var front, last := refs[..|refs| - 1], refs[|refs| - 1];
      UniqueKeepsKeys(front);
      KeysOfAppend(front, last);
      KeysOfAppend(Unique(front), last);
      assert refs == front + [last];
    }
  }

  lemma {:induction false} UniqueOfAppend(refs: seq<Ref>, ref: Ref)
    ensures Unique(refs + [ref]) == if RefKey(ref) in Keys(refs) then Unique(refs) else Unique(refs) + [ref]
  {
    assert (refs + [ref])[..|refs|] == refs;
  }

  lemma KeysOfAppend(refs: seq<Ref>, ref: Ref)
    ensures Keys(refs + [ref]) == Keys(refs) + {RefKey(ref)}
  {
    var longer := refs + [ref];
    assert longer[|refs|] == ref;
    forall i | 0 <= i < |refs| ensures RefKey(refs[i]) in Keys(longer) {
      assert longer[i] == refs[i];
    }
  }

  lemma {:induction false} UniqueIsDistinct(refs: seq<Ref>)
    ensures DistinctKeys(Unique(refs)) && forall ref | ref in Unique(refs) :: ref in refs
  {
    if refs != [] {
      var front, last := refs[..|refs| - 1], refs[|refs| - 1];
      UniqueIsDistinct(front);
      UniqueKeepsKeys(front);
      forall i | 0 <= i < |Unique(front)| ensures RefKey(Unique(front)[i]) in Keys(front) {
        assert RefKey(Unique(front)[i]) in Keys(Unique(front));
      }
      assert refs == front + [last];
    }
  }

  lemma {:induction false} DistinctStays(refs: seq<Ref>)
    requires DistinctKeys(refs)
    ensures Unique(refs) == refs
  {
    if refs != [] {
      DistinctStays(refs[..|refs| - 1]);
      assert refs == refs[..|refs| - 1] + [refs[|refs| - 1]];
    }
  }

  lemma DistinctIsCounted(refs: seq<Ref>, others: seq<Ref>)
    requires multiset(refs) == multiset(others) && DistinctKeys(refs)
    ensures DistinctKeys(others)
  {
    forall i, j | 0 <= i < j < |others| ensures RefKey(others[i]) != RefKey(others[j]) {
      var a, b := others[i], others[j];
      assert a in multiset(others) && b in multiset(others);
      assert a in refs && b in refs;
      var m :| 0 <= m < |refs| && refs[m] == a;
      var n :| 0 <= n < |refs| && refs[n] == b;
      if m == n {
        TwiceCounted(others, i, j);
        OnceCounted(refs, m);
        assert false;
      }
    }
  }

  lemma TwiceCounted(refs: seq<Ref>, i: nat, j: nat)
    requires i < j < |refs| && refs[i] == refs[j]
    ensures multiset(refs)[refs[i]] >= 2
  {
    var a, b := refs[..j], refs[j..];
    assert refs == a + b;
    assert a[i] == refs[i] && b[0] == refs[j];
    assert refs[i] in multiset(a) && refs[i] in multiset(b);
  }

  lemma OnceCounted(refs: seq<Ref>, m: nat)
    requires m < |refs| && DistinctKeys(refs)
    ensures multiset(refs)[refs[m]] == 1
  {
    var a, b := refs[..m], refs[m + 1..];
    assert refs == a + [refs[m]] + b;
    assert refs[m] !in a && refs[m] !in b;
  }

  /** The refs a reader recognizes: those with a positive number. */
  function Positive(refs: seq<Ref>): seq<Ref> {
    if refs == [] then []
    else
      var front, last := Positive(refs[..|refs| - 1]), refs[|refs| - 1];
      if last.tradeN >= 1 then front + [last] else front
  }

  lemma {:induction false} RecognizesItsOwn(refs: seq<Ref>)
    ensures AllRecognized(seq(|refs|, i requires 0 <= i < |refs| => ItemOf(refs[i]))) == Positive(refs)
  {
    var items := seq(|refs|, i requires 0 <= i < |refs| => ItemOf(refs[i]));
    if refs != [] {
      var front := refs[..|refs| - 1];
      RecognizesItsOwn(front);
      assert items[..|items| - 1] == seq(|front|, i requires 0 <= i < |front| => ItemOf(front[i]));
      assert Positive(front) + [] == Positive(front);
    }
  }

  lemma {:induction false} PositiveMembers(refs: seq<Ref>, ref: Ref)
    ensures ref in Positive(refs) <==> ref in refs && ref.tradeN >= 1
  {
    if refs != [] {
      PositiveMembers(refs[..|refs| - 1], ref);
      assert refs == refs[..|refs| - 1] + [refs[|refs| - 1]];
    }
  }

  /** Of a list newest first they are the front. */
  lemma {:induction false} PositiveIsFront(refs: seq<Ref>)
    requires Falls(refs, (ref: Ref) => ref.tradeN)
    ensures Positive(refs) <= refs
    ensures refs != [] && refs[|refs| - 1].tradeN >= 1 ==> Positive(refs) == refs
  {
    if refs != [] {
      var front := refs[..|refs| - 1];
      PositiveIsFront(front);
      assert refs == front + [refs[|refs| - 1]];
      if refs[|refs| - 1].tradeN >= 1 && front != [] {
        assert refs[|refs| - 2].tradeN >= refs[|refs| - 1].tradeN;
      }
    }
  }

  lemma {:induction false} SortedUnique(refs: seq<Ref>)
    ensures var sorted := NewestFirst(Unique(refs));
            && DistinctKeys(sorted) && Keys(sorted) == Keys(refs) && Falls(sorted, (ref: Ref) => ref.tradeN)
            && (forall ref | ref in sorted :: ref in refs)
  {
    var unique, sorted := Unique(refs), NewestFirst(Unique(refs));
    UniqueIsDistinct(refs);
    UniqueKeepsKeys(refs);
    SortFits(unique, (ref: Ref) => ref.tradeN);
    DistinctIsCounted(unique, sorted);
    SameKeys(unique, sorted);
    forall ref | ref in sorted ensures ref in refs {
      assert ref in multiset(sorted);
      assert ref in unique;
    }
  }

  /** An entry that names a ref of the key: a bare positive number, or an object with one. */
  predicate Names(item: Item, key: string) {
    match item
    case Bare(n) => n >= 1 && RefKey(Ref(None, n)) == key
    case Object(sourceId, Some(n)) => n >= 1 && RefKey(Ref(sourceId, n)) == key
    case _ => false
  }

  lemma {:induction false} RecognizedNames(items: seq<Item>, key: string)
    ensures key in Keys(AllRecognized(items)) <==> exists i :: 0 <= i < |items| && Names(items[i], key)
  {
    if items != [] {
      var front, last := items[..|items| - 1], items[|items| - 1];
      RecognizedNames(front, key);
      assert items == front + [last];
      if Recognized(last) == [] {
        assert AllRecognized(items) == AllRecognized(front);
      } else {
        KeysOfAppend(AllRecognized(front), Recognized(last)[0]);
        assert Recognized(last) == [Recognized(last)[0]];
      }
    }
  }

  /** Of any stored array exactly the keys its entries name are read, bare numbers and objects alike. */
  lemma ParsedNames(items: seq<Item>, key: string)
    ensures key in Keys(Parsed(Array(items))) <==> exists i :: 0 <= i < |items| && Names(items[i], key)
  {
    SortedUnique(AllRecognized(items));
    RecognizedNames(items, key);
  }

  lemma {:induction false} StoredReadsAs(refs: seq<Ref>)
    ensures Parsed(Serialized(refs)) == Positive(NewestFirst(Unique(refs)))
    ensures DistinctKeys(Parsed(Serialized(refs))) && Falls(Parsed(Serialized(refs)), (ref: Ref) => ref.tradeN)
  {
    var sorted := NewestFirst(Unique(refs));
    SortedUnique(refs);
    RecognizesItsOwn(sorted);
    PositiveIsFront(sorted);
    DistinctStays(Positive(sorted));
    SortedStays(Positive(sorted), (ref: Ref) => ref.tradeN);
  }

  /** What is stored reads back as the list without its repeats and without the numbers no reader
      recognizes, newest first, equal numbers in the order they came: nothing that was not stored, and
      every key of a positive number; and storing that again changes nothing. */
  lemma {:induction false} StoredIndexReadsBack(refs: seq<Ref>)
    ensures var read := Parsed(Serialized(refs));
            && read == Positive(NewestFirst(Unique(refs)))
            && DistinctKeys(read)
            && (forall i, j | 0 <= i < j < |read| :: read[i].tradeN >= read[j].tradeN)
            && (forall ref | ref in read :: ref in refs && ref.tradeN >= 1)
            && (forall ref | ref in refs && ref.tradeN >= 1 :: RefKey(ref) in Keys(read))
            && Parsed(Serialized(read)) == read
  {
    var sorted, read := NewestFirst(Unique(refs)), Parsed(Serialized(refs));
    SortedUnique(refs);
    StoredReadsAs(refs);
    forall ref | ref in read ensures ref in refs && ref.tradeN >= 1 {
      PositiveMembers(sorted, ref);
    }
    forall ref | ref in refs && ref.tradeN >= 1 ensures RefKey(ref) in Keys(read) {
      assert RefKey(ref) in Keys(refs);
      KeyIsRead(sorted, ref);
    }
    ReadsAgain(read);
  }

  lemma {:induction false} KeyIsRead(sorted: seq<Ref>, ref: Ref)
    requires RefKey(ref) in Keys(sorted) && ref.tradeN >= 1
    ensures RefKey(ref) in Keys(Positive(sorted))
  {
    var i :| 0 <= i < |sorted| && RefKey(sorted[i]) == RefKey(ref);
    KeysAreInjective(sorted[i], ref);
    PositiveMembers(sorted, sorted[i]);
    var j :| 0 <= j < |Positive(sorted)| && Positive(sorted)[j] == sorted[i];
  }

  lemma ReadsAgain(read: seq<Ref>)
    requires DistinctKeys(read) && Falls(read, (ref: Ref) => ref.tradeN) && forall ref | ref in read :: ref.tradeN >= 1
    ensures Parsed(Serialized(read)) == read
  {
    DistinctStays(read);
    SortedStays(read, (ref: Ref) => ref.tradeN);
    StoredReadsAs(read);
    PositiveIsFront(read);
  }

  lemma SameKeys(a: seq<Ref>, b: seq<Ref>)
    requires multiset(a) == multiset(b)
    ensures Keys(a) == Keys(b)
  {
    forall i | 0 <= i < |a| ensures RefKey(a[i]) in Keys(b) {
      assert a[i] in multiset(b);
      assert a[i] in b;
    }
    forall i | 0 <= i < |b| ensures RefKey(b[i]) in Keys(a) {
      assert b[i] in multiset(a);
      assert b[i] in a;
    }
  }
}
