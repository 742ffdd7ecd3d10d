/**
 RTP header extensions: deduplication and lookup (api/rtp_parameters.cc).

 `IsDeduplicated` says what the canonical list of a set of extensions is, entry by entry; it has
 exactly one solution, so every property of it is a property of what the code returns.
 */
module HeaderExtensions {
  import opened Wrappers

  datatype RtpExtension = RtpExtension(uri: string, id: int, encrypt: bool)

  datatype Filter = DiscardEncrypted | PreferEncrypted | RequireEncrypted

  // The order of std::string and of the sort.

  predicate StringLess(a: string, b: string) {
    b != "" && (a == "" || a[0] < b[0] || (a[0] == b[0] && StringLess(a[1..], b[1..])))
  }

  lemma {:induction false} StringLessIsTotal(a: string, b: string)
    ensures StringLess(a, b) || a == b || StringLess(b, a)
    ensures !(StringLess(a, b) && StringLess(b, a)) && (a == b ==> !StringLess(a, b))
  {
    if a == "" || b == "" {
    } else {
      StringLessIsTotal(a[1..], b[1..]);
      assert a == [a[0]] + a[1..] && b == [b[0]] + b[1..];
    }
  }

  lemma {:induction false} StringLessIsTransitive(a: string, b: string, c: string)
    requires StringLess(a, b) && StringLess(b, c)
    ensures StringLess(a, c)
  {
    if a == "" || a[0] != b[0] || b[0] != c[0] {
    } else {
      StringLessIsTransitive(a[1..], b[1..], c[1..]);
    }
  }

  /** Strings are compared by the first character in which they differ; a prefix comes first. */
  lemma {:induction false} StringLessByFirstDifference(common: string, x: char, y: char, a: string, b: string)
    ensures StringLess(common + [x] + a, common + [y] + b) <== x < y
    ensures StringLess(common, common + [x] + a)
  {
    var s, t := common + [x] + a, common + [y] + b;
    if common == "" {
      assert s == [x] + a && t == [y] + b;
    } else {
      StringLessByFirstDifference(common[1..], x, y, a, b);
      assert s[1..] == common[1..] + [x] + a && t[1..] == common[1..] + [y] + b;
    }
  }

  /** The comparison of std::sort: by uri, then encryption, then id. */
  predicate SortsBefore(a: RtpExtension, b: RtpExtension) {
    StringLess(a.uri, b.uri)
    || (a.uri == b.uri && ((!a.encrypt && b.encrypt) || (a.encrypt == b.encrypt && a.id < b.id)))
  }

  lemma NotAfterIsTransitive(a: RtpExtension, b: RtpExtension, c: RtpExtension)
    requires !SortsBefore(b, a) && !SortsBefore(c, b)
    ensures !SortsBefore(c, a)
  {
    StringLessIsTotal(a.uri, b.uri);
    StringLessIsTotal(b.uri, c.uri);
    StringLessIsTotal(a.uri, c.uri);
    if StringLess(a.uri, b.uri) && StringLess(b.uri, c.uri) {
      StringLessIsTransitive(a.uri, b.uri, c.uri);
    }
  }

  predicate Sorted(s: seq<RtpExtension>) {
    forall i, j :: 0 <= i < j < |s| ==> !SortsBefore(s[j], s[i])
  }

  /** Stands for std::sort: some sorted arrangement of the same entries. */
  method Sort(s: seq<RtpExtension>) returns (r: seq<RtpExtension>)
    ensures Sorted(r) && multiset(r) == multiset(s)
  {
    r := [];
    for i := 0 to |s|
      invariant Sorted(r) && multiset(r) == multiset(s[..i])
    {
      r := InsertSorted(r, s[i]);
      assert s[..i + 1] == s[..i] + [s[i]];
    }
    assert s[..|s|] == s;
  }

  method InsertSorted(s: seq<RtpExtension>, x: RtpExtension) returns (r: seq<RtpExtension>)
    requires Sorted(s)
    ensures Sorted(r) && multiset(r) == multiset(s) + multiset{x}
  {
    var k := 0;
    while k < |s| && !SortsBefore(x, s[k])
      invariant 0 <= k <= |s|
      invariant forall i :: 0 <= i < k ==> !SortsBefore(x, s[i])
    {
      k := k + 1;
    }
    r := s[..k] + [x] + s[k..];
    assert s == s[..k] + s[k..];
    forall j | k <= j < |s|
      ensures !SortsBefore(s[j], x)
    {
      StringLessIsTotal(x.uri, s[k].uri);
      if k < j {
        NotAfterIsTransitive(x, s[k], s[j]);
      }
    }
  }

  // Which entry is taken for a uri.

  predicate Matches(e: RtpExtension, uri: string, encrypt: bool) {
    e.uri == uri && e.encrypt == encrypt
  }

  function First(s: seq<RtpExtension>, uri: string, encrypt: bool): (r: Option<RtpExtension>)
    ensures r.None? <==> forall e :: e in s ==> !Matches(e, uri, encrypt)
    ensures r.Some? ==> r.value in s && Matches(r.value, uri, encrypt)
  {
    if s == [] then None
    else
      var init, last := s[..|s| - 1], s[|s| - 1];
      assert s == init + [last];
      var earlier := First(init, uri, encrypt);
      if earlier.Some? then earlier else if Matches(last, uri, encrypt) then Some(last) else None
  }

  function Last(s: seq<RtpExtension>, uri: string, encrypt: bool): (r: Option<RtpExtension>)
    ensures r.None? <==> First(s, uri, encrypt).None?
    ensures r.Some? ==> r.value in s && Matches(r.value, uri, encrypt)
  {
    if s == [] then None
    else
      var init, last := s[..|s| - 1], s[|s| - 1];
      assert s == init + [last];
      if Matches(last, uri, encrypt) then Some(last) else Last(init, uri, encrypt)
  }

  predicate IsFirstAt(s: seq<RtpExtension>, uri: string, encrypt: bool, i: int) {
    0 <= i < |s| && Matches(s[i], uri, encrypt) && forall j :: 0 <= j < i ==> !Matches(s[j], uri, encrypt)
  }

  /** Which entries these are, by position. */
  lemma {:induction false} FirstIsAt(s: seq<RtpExtension>, uri: string, encrypt: bool, i: nat)
    requires IsFirstAt(s, uri, encrypt, i)
    ensures First(s, uri, encrypt) == Some(s[i])
  {
    var init := s[..|s| - 1];
    if i == |s| - 1 {
      assert forall e :: e in init ==> !Matches(e, uri, encrypt);
    } else {
      FirstIsAt(init, uri, encrypt, i);
    }
  }

  lemma {:induction false} LastIsAt(s: seq<RtpExtension>, uri: string, encrypt: bool, i: nat)
    requires i < |s| && Matches(s[i], uri, encrypt)
    requires forall j :: i < j < |s| ==> !Matches(s[j], uri, encrypt)
    ensures Last(s, uri, encrypt) == Some(s[i])
  {
    if i == |s| - 1 {
    } else {
      assert !Matches(s[|s| - 1], uri, encrypt);
      LastIsAt(s[..|s| - 1], uri, encrypt, i);
    }
  }

  /** The first encrypted entry when the filter admits one, otherwise the first unencrypted entry
      when the filter admits that. */
  function Selected(s: seq<RtpExtension>, filter: Filter, uri: string): Option<RtpExtension> {
    if filter != DiscardEncrypted && First(s, uri, true).Some? then First(s, uri, true)
    else if filter != RequireEncrypted then First(s, uri, false)
    else None
  }

  predicate StrictlySortedByUri(s: seq<RtpExtension>) {
    forall i, j :: 0 <= i < j < |s| ==> StringLess(s[i].uri, s[j].uri)
  }

  ghost predicate IsDeduplicated(r: seq<RtpExtension>, s: seq<RtpExtension>, filter: Filter) {
    && StrictlySortedByUri(r)
    && forall e :: e in r <==> Selected(s, filter, e.uri) == Some(e)
  }

  /** The position i is what deduplication is to take for a uri: the first encrypted entry if the filter
      admits any, and otherwise the first unencrypted one if it admits those. */
  ghost predicate IsSelectedAt(s: seq<RtpExtension>, uri: string, filter: Filter, i: nat) {
    && i < |s| && s[i].uri == uri
    && (if s[i].encrypt
        then filter != DiscardEncrypted && forall j :: 0 <= j < i && s[j].uri == uri ==> !s[j].encrypt
        else && filter != RequireEncrypted && (forall j :: 0 <= j < i && s[j].uri == uri ==> s[j].encrypt)
             && (filter == DiscardEncrypted || forall j :: 0 <= j < |s| && s[j].uri == uri ==> !s[j].encrypt))
  }

  lemma SelectedIsAt(s: seq<RtpExtension>, uri: string, filter: Filter, i: nat)
    requires IsSelectedAt(s, uri, filter, i)
    ensures Selected(s, filter, uri) == Some(s[i])
  {
    FirstIsAt(s, uri, s[i].encrypt, i);
  }

  // The loops.

  method HeaderExtensionWithUriExists(extensions: seq<RtpExtension>, uri: string) returns (found: bool)
    ensures found <==> exists e :: e in extensions && e.uri == uri
  {
    for i := 0 to |extensions|
      invariant forall j :: 0 <= j < i ==> extensions[j].uri != uri
    {
      if extensions[i].uri == uri {
        return true;
      }
    }
    return false;
  }

  predicate DistinctUris(s: seq<RtpExtension>) {
    forall i, j :: 0 <= i < j < |s| ==> s[i].uri != s[j].uri
  }

  ghost predicate HasUri(s: seq<RtpExtension>, uri: string) {
    exists e :: e in s && e.uri == uri
  }

  /** One of the two filtering loops: adds the entries with the given flag whose uri is missing. */
  method AddMissing(filtered: seq<RtpExtension>, extensions: seq<RtpExtension>, encrypt: bool)
      returns (r: seq<RtpExtension>)
    requires DistinctUris(filtered)
    ensures DistinctUris(r)
    ensures forall e :: e in r <==>
              e in filtered || (!HasUri(filtered, e.uri) && First(extensions, e.uri, encrypt) == Some(e))
  {
    r := filtered;
    for i := 0 to |extensions|
      invariant DistinctUris(r)
      invariant forall e :: e in r <==>
                  e in filtered || (!HasUri(filtered, e.uri) && First(extensions[..i], e.uri, encrypt) == Some(e))
    {
      var x := extensions[i];
      assert extensions[..i + 1][..i] == extensions[..i];
      if x.encrypt == encrypt {
        var found := HeaderExtensionWithUriExists(r, x.uri);
        if !found {
          AppendMissing(r, x);
          assert First(extensions[..i], x.uri, encrypt).None?;
          r := r + [x];
        } else {
          assert HasUri(filtered, x.uri) || First(extensions[..i], x.uri, encrypt).Some?;
        }
      }
    }
    assert extensions[..|extensions|] == extensions;
  }

  lemma AppendMissing(s: seq<RtpExtension>, x: RtpExtension)
    requires DistinctUris(s) && forall e :: e in s ==> e.uri != x.uri
    ensures DistinctUris(s + [x])
    ensures forall e :: e in s + [x] <==> e in s || e == x
  {
  }

  method DeduplicateHeaderExtensions(extensions: seq<RtpExtension>, filter: Filter)
      returns (r: seq<RtpExtension>)
    ensures IsDeduplicated(r, extensions, filter)
  {
    var filtered: seq<RtpExtension> := [];
    if filter != DiscardEncrypted {
      filtered := AddMissing(filtered, extensions, true);
    }
    ghost var encrypted := filtered;
    if filter != RequireEncrypted {
      filtered := AddMissing(filtered, extensions, false);
    }
    forall e ensures e in filtered <==> Selected(extensions, filter, e.uri) == Some(e) {
      FilteredIsSelected(extensions, filter, encrypted, filtered, e);
    }
    r := Sort(filtered);
    SortedDistinct(filtered, r);
  }

  lemma FilteredIsSelected(s: seq<RtpExtension>, filter: Filter, encrypted: seq<RtpExtension>,
                           filtered: seq<RtpExtension>, e: RtpExtension)
    requires forall x :: x in encrypted <==>
               filter != DiscardEncrypted && First(s, x.uri, true) == Some(x)
    requires if filter == RequireEncrypted then filtered == encrypted
             else forall x :: x in filtered <==>
                    x in encrypted || (!HasUri(encrypted, x.uri) && First(s, x.uri, false) == Some(x))
    ensures e in filtered <==> Selected(s, filter, e.uri) == Some(e)
  {
    var first := First(s, e.uri, true);
    if filter != DiscardEncrypted && first.Some? {
      assert first.value in encrypted;
      assert HasUri(encrypted, e.uri);
    } else {
      assert !HasUri(encrypted, e.uri);
    }
  }

  lemma SortedDistinct(s: seq<RtpExtension>, r: seq<RtpExtension>)
    requires DistinctUris(s) && Sorted(r) && multiset(r) == multiset(s)
    ensures StrictlySortedByUri(r) && forall e :: e in r <==> e in s
  {
    forall e ensures e in r <==> e in s {
      assert e in r <==> e in multiset(r);
    }
    forall i, j | 0 <= i < j < |r| ensures StringLess(r[i].uri, r[j].uri) {
      StringLessIsTotal(r[i].uri, r[j].uri);
      if r[i].uri == r[j].uri {
        assert r[i] in s && r[j] in s;
        assert r[i] == r[j];
        TwiceInMultiset(r, i, j);
        OnceInDistinct(s, r[i]);
      }
    }
  }

  lemma TwiceInMultiset(r: seq<RtpExtension>, i: nat, j: nat)
    requires i < j < |r| && r[i] == r[j]
    ensures multiset(r)[r[i]] >= 2
  {
    assert r == r[..j] + r[j..];
    assert r[i] in r[..j] && r[j] in r[j..];
  }

  lemma {:induction false} OnceInDistinct(s: seq<RtpExtension>, x: RtpExtension)
    requires DistinctUris(s)
    ensures multiset(s)[x] <= 1
  {
    if s == [] {
    } else {
      var init, last := s[..|s| - 1], s[|s| - 1];
      assert s == init + [last];
      OnceInDistinct(init, x);
      if last == x {
        assert x !in init;
      }
    }
  }

  // The canonical list.

  lemma {:induction false} StrictlySortedIsUnique(a: seq<RtpExtension>, b: seq<RtpExtension>)
    requires StrictlySortedByUri(a) && StrictlySortedByUri(b)
    requires forall e :: e in a <==> e in b
    ensures a == b
  {
    if a == [] {
      FirstIsMember(b);
    } else {
      assert a[0] in b;
      SmallestComesFirst(a, b);
      forall e ensures e in a[1..] <==> e in b[1..] {
        InTail(a, e);
        InTail(b, e);
      }
      StrictlySortedIsUnique(a[1..], b[1..]);
      assert a == [a[0]] + a[1..] && b == [b[0]] + b[1..];
    }
  }

  lemma FirstIsMember(s: seq<RtpExtension>)
    ensures s == [] || s[0] in s
  {
  }

  lemma SmallestComesFirst(a: seq<RtpExtension>, b: seq<RtpExtension>)
    requires StrictlySortedByUri(a) && StrictlySortedByUri(b) && a != [] && b != []
    requires forall e :: e in a <==> e in b
    ensures a[0] == b[0]
  {
    assert a[0] in b && b[0] in a;
    var i :| 0 <= i < |a| && a[i] == b[0];
    var j :| 0 <= j < |b| && b[j] == a[0];
    StringLessIsTotal(a[0].uri, b[0].uri);
  }

  lemma InTail(s: seq<RtpExtension>, e: RtpExtension)
    requires StrictlySortedByUri(s) && s != []
    ensures e in s[1..] <==> e in s && e != s[0]
  {
    assert s == [s[0]] + s[1..];
    if e in s[1..] {
      var i :| 0 <= i < |s[1..]| && s[1..][i] == e;
      assert s[i + 1] == e;
      StringLessIsTotal(s[0].uri, s[i + 1].uri);
    }
  }

  /** There is one canonical list for given extensions and filter. */
  lemma DeduplicatedIsUnique(a: seq<RtpExtension>, b: seq<RtpExtension>, s: seq<RtpExtension>, filter: Filter)
    requires IsDeduplicated(a, s, filter) && IsDeduplicated(b, s, filter)
    ensures a == b
  {
    StrictlySortedIsUnique(a, b);
  }

  lemma OneEntryPerUri(r: seq<RtpExtension>, e1: RtpExtension, e2: RtpExtension)
    requires StrictlySortedByUri(r) && e1 in r && e2 in r && e1.uri == e2.uri
    ensures e1 == e2
  {
    StringLessIsTotal(e1.uri, e2.uri);
  }

  /** In a canonical list the only entry for a uri is what the original selects for it. */
  lemma EntriesOfDeduplicated(r: seq<RtpExtension>, s: seq<RtpExtension>, filter: Filter, uri: string)
    requires IsDeduplicated(r, s, filter)
    ensures forall encrypt :: First(r, uri, encrypt) == Last(r, uri, encrypt)
                           == if Selected(s, filter, uri).Some? && Selected(s, filter, uri).value.encrypt == encrypt
                              then Selected(s, filter, uri) else None
  {
    forall encrypt
      ensures First(r, uri, encrypt) == Last(r, uri, encrypt)
           == if Selected(s, filter, uri).Some? && Selected(s, filter, uri).value.encrypt == encrypt
              then Selected(s, filter, uri) else None
    {
      var first, last := First(r, uri, encrypt), Last(r, uri, encrypt);
      if first.Some? {
        OneEntryPerUri(r, first.value, last.value);
        assert Selected(s, filter, uri) == first;
      } else if Selected(s, filter, uri).Some? {
        assert Selected(s, filter, uri).value in r;
      }
    }
  }

  /** Deduplicating a canonical list changes nothing. */
  lemma DeduplicationIsIdempotent(r: seq<RtpExtension>, s: seq<RtpExtension>, filter: Filter, again: seq<RtpExtension>)
    requires IsDeduplicated(r, s, filter) && IsDeduplicated(again, r, filter)
    ensures again == r
  {
    forall e ensures e in r <==> Selected(r, filter, e.uri) == Some(e) {
      EntriesOfDeduplicated(r, s, filter, e.uri);
      assert First(r, e.uri, true) == First(r, e.uri, true);
      assert First(r, e.uri, false) == First(r, e.uri, false);
    }
    DeduplicatedIsUnique(again, r, r, filter);
  }

  /** All entries the selection for a uri chooses among are the same entry. */
  ghost predicate Unambiguous(s: seq<RtpExtension>, filter: Filter) {
    forall e :: e in s && Contends(s, filter, e) ==> Selected(s, filter, e.uri) == Some(e)
  }

  /** e is of the kind (encrypted or not) that is selected for its uri. */
  predicate Contends(s: seq<RtpExtension>, filter: Filter, e: RtpExtension) {
    Selected(s, filter, e.uri).Some? && Selected(s, filter, e.uri).value.encrypt == e.encrypt
  }

  lemma SameMembers(s: seq<RtpExtension>, t: seq<RtpExtension>)
    requires multiset(s) == multiset(t)
    ensures forall e :: e in s <==> e in t
  {
    forall e ensures e in s <==> e in t {
      assert e in s <==> e in multiset(s);
      assert e in t <==> e in multiset(t);
    }
  }

  lemma PermutationKeepsKind(s: seq<RtpExtension>, t: seq<RtpExtension>, filter: Filter, uri: string)
    requires multiset(s) == multiset(t)
    ensures Selected(s, filter, uri).Some? <==> Selected(t, filter, uri).Some?
    ensures Selected(s, filter, uri).Some? ==>
              Selected(s, filter, uri).value.encrypt == Selected(t, filter, uri).value.encrypt
  {
    SameMembers(s, t);
  }

  /** When nothing is ambiguous the order of the extensions does not matter ... */
  lemma UnambiguousIsOrderFree(s: seq<RtpExtension>, t: seq<RtpExtension>, filter: Filter,
                               rs: seq<RtpExtension>, rt: seq<RtpExtension>)
    requires multiset(s) == multiset(t) && Unambiguous(s, filter)
    requires IsDeduplicated(rs, s, filter) && IsDeduplicated(rt, t, filter)
    ensures rs == rt
  {
    SameMembers(s, t);
    forall e ensures e in rs <==> e in rt {
      PermutationKeepsKind(s, t, filter, e.uri);
      var chosen := Selected(t, filter, e.uri);
      if chosen.Some? {
        assert chosen.value in s && Contends(s, filter, chosen.value);
      }
    }
    StrictlySortedIsUnique(rs, rt);
  }

  /** ... and when something is, some reordering gives a different list. */
  lemma AmbiguousDependsOnOrder(s: seq<RtpExtension>, filter: Filter, rs: seq<RtpExtension>)
      returns (t: seq<RtpExtension>)
    requires !Unambiguous(s, filter) && IsDeduplicated(rs, s, filter)
    ensures multiset(t) == multiset(s)
    ensures forall rt :: IsDeduplicated(rt, t, filter) ==> rt != rs
  {
    var e :| e in s && Contends(s, filter, e) && Selected(s, filter, e.uri) != Some(e);
    var k :| 0 <= k < |s| && s[k] == e;
    t := MovedToFront(s, k);
    FirstOfHead(e, s[..k] + s[k + 1..]);
    PermutationKeepsKind(s, t, filter, e.uri);
    assert Selected(t, filter, e.uri) == Some(e);
    forall rt | IsDeduplicated(rt, t, filter) ensures rt != rs {
      assert e in rt && e !in rs;
    }
  }

  function MovedToFront(s: seq<RtpExtension>, k: nat): (t: seq<RtpExtension>)
    requires k < |s|
    ensures multiset(t) == multiset(s)
  {
    assert s == s[..k] + [s[k]] + s[k + 1..];
    [s[k]] + (s[..k] + s[k + 1..])
  }

  lemma {:induction false} FirstOfHead(e: RtpExtension, rest: seq<RtpExtension>)
    ensures First([e] + rest, e.uri, e.encrypt) == Some(e)
  {
    var s := [e] + rest;
    if rest == [] {
      assert s[..|s| - 1] == [];
    } else {
      assert s[..|s| - 1] == [e] + rest[..|rest| - 1];
      FirstOfHead(e, rest[..|rest| - 1]);
    }
  }

  // Lookup.

  /** What lookup by uri finds: like `Selected`, except that falling back to unencrypted entries
      takes the last of them. */
  function Found(s: seq<RtpExtension>, uri: string, filter: Filter): Option<RtpExtension> {
    match filter
    case DiscardEncrypted => First(s, uri, false)
    case RequireEncrypted => First(s, uri, true)
    case PreferEncrypted => if First(s, uri, true).Some? then First(s, uri, true) else Last(s, uri, false)
  }

  /** The position i is what lookup by uri is to find: under the discard and require filters the first
      entry of the one kind that is accepted; under the prefer filter the first encrypted one, or the
      last one if none is encrypted. */
  ghost predicate IsFoundAt(s: seq<RtpExtension>, uri: string, filter: Filter, i: nat) {
    && i < |s| && s[i].uri == uri
    && match filter
       case DiscardEncrypted => !s[i].encrypt && forall j :: 0 <= j < i && s[j].uri == uri ==> s[j].encrypt
       case RequireEncrypted => s[i].encrypt && forall j :: 0 <= j < i && s[j].uri == uri ==> !s[j].encrypt
       case PreferEncrypted =>
         if s[i].encrypt then forall j :: 0 <= j < i && s[j].uri == uri ==> !s[j].encrypt
         else forall j :: 0 <= j < |s| && s[j].uri == uri ==> !s[j].encrypt && j <= i
  }

  /** Nothing in the list is accepted. */
  ghost predicate IsNowhere(s: seq<RtpExtension>, uri: string, filter: Filter) {
    forall j :: 0 <= j < |s| && s[j].uri == uri ==>
      (filter == DiscardEncrypted && s[j].encrypt) || (filter == RequireEncrypted && !s[j].encrypt)
  }

  lemma FoundIsAt(s: seq<RtpExtension>, uri: string, filter: Filter, i: nat)
    requires IsFoundAt(s, uri, filter, i)
    ensures Found(s, uri, filter) == Some(s[i])
  {
    if filter == PreferEncrypted && !s[i].encrypt {
      LastIsAt(s, uri, false, i);
    } else {
      FirstIsAt(s, uri, s[i].encrypt, i);
    }
  }

  lemma FoundNowhere(s: seq<RtpExtension>, uri: string, filter: Filter)
    ensures Found(s, uri, filter).None? <==> IsNowhere(s, uri, filter)
    ensures Selected(s, filter, uri).None? <==> IsNowhere(s, uri, filter)
  {
    if IsNowhere(s, uri, filter) {
      forall e | e in s
        ensures e.uri == uri ==> e.encrypt == (filter == DiscardEncrypted) && filter != PreferEncrypted
      {
        var j :| 0 <= j < |s| && s[j] == e;
      }
    } else {
      var j :| 0 <= j < |s| && s[j].uri == uri
               && !(filter == DiscardEncrypted && s[j].encrypt) && !(filter == RequireEncrypted && !s[j].encrypt);
      assert s[j] in s && Matches(s[j], uri, s[j].encrypt);
    }
  }

  /** What lookup finds, by position. */
  lemma FoundMeans(s: seq<RtpExtension>, uri: string, filter: Filter)
    ensures forall i: nat :: IsFoundAt(s, uri, filter, i) ==> Found(s, uri, filter) == Some(s[i])
    ensures Found(s, uri, filter).None? <==> IsNowhere(s, uri, filter)
  {
    forall i: nat | IsFoundAt(s, uri, filter, i) ensures Found(s, uri, filter) == Some(s[i]) {
      FoundIsAt(s, uri, filter, i);
    }
    FoundNowhere(s, uri, filter);
  }

  method FindHeaderExtensionByUri(extensions: seq<RtpExtension>, uri: string, filter: Filter)
      returns (r: Option<RtpExtension>)
    ensures r == Found(extensions, uri, filter)
    ensures forall i: nat :: IsFoundAt(extensions, uri, filter, i) ==> r == Some(extensions[i])
    ensures r.None? <==> IsNowhere(extensions, uri, filter)
  {
    hide IsFoundAt, IsNowhere;
    FoundMeans(extensions, uri, filter);
    var fallback: Option<RtpExtension> := None;
    for i := 0 to |extensions|
      invariant filter != DiscardEncrypted ==> First(extensions[..i], uri, true).None?
      invariant filter == DiscardEncrypted ==> First(extensions[..i], uri, false).None?
      invariant fallback == if filter == PreferEncrypted then Last(extensions[..i], uri, false) else None
    {
      var extension := extensions[i];
      assert extensions[..i + 1][..i] == extensions[..i];
      if extension.uri == uri {
        match filter
        case DiscardEncrypted =>
          if !extension.encrypt {
            FirstIsStable(extensions, i + 1, uri, false);
            return Some(extension);
          }
        case PreferEncrypted =>
          if extension.encrypt {
            FirstIsStable(extensions, i + 1, uri, true);
            return Some(extension);
          } else {
            fallback := Some(extension);
          }
        case RequireEncrypted =>
          if extension.encrypt {
            FirstIsStable(extensions, i + 1, uri, true);
            return Some(extension);
          }
      }
    }
    assert extensions[..|extensions|] == extensions;
    return fallback;
  }

  method FindHeaderExtensionByUriAndEncryption(extensions: seq<RtpExtension>, uri: string, encrypt: bool)
      returns (r: Option<RtpExtension>)
    ensures r == First(extensions, uri, encrypt)
    ensures r.None? ==> forall j :: 0 <= j < |extensions| ==> !Matches(extensions[j], uri, encrypt)
    ensures r.Some? ==>
              exists i :: 0 <= i < |extensions| && r.value == extensions[i] && IsFirstAt(extensions, uri, encrypt, i)
  {
    for i := 0 to |extensions|
      invariant First(extensions[..i], uri, encrypt).None?
      invariant forall j :: 0 <= j < i ==> !Matches(extensions[j], uri, encrypt)
    {
      assert extensions[..i + 1][..i] == extensions[..i];
      if extensions[i].uri == uri && extensions[i].encrypt == encrypt {
        FirstIsStable(extensions, i + 1, uri, encrypt);
        return Some(extensions[i]);
      }
    }
    assert extensions[..|extensions|] == extensions;
    return None;
  }

  lemma {:induction false} FirstIsStable(s: seq<RtpExtension>, n: nat, uri: string, encrypt: bool)
    requires n <= |s| && First(s[..n], uri, encrypt).Some?
    ensures First(s, uri, encrypt) == First(s[..n], uri, encrypt)
  {
    if n == |s| {
      assert s[..n] == s;
    } else {
      var init := s[..|s| - 1];
      assert init[..n] == s[..n];
      FirstIsStable(init, n, uri, encrypt);
    }
  }

  /**
   Lookup in the canonical list against lookup in the original: the same uris are found, and the
   same entry is, except exactly when the filter prefers encryption, the uri has no encrypted entry,
   and its first and last unencrypted entries differ (the list keeps the first, lookup the last).
   */
  lemma LookupAfterDeduplication(r: seq<RtpExtension>, s: seq<RtpExtension>, filter: Filter, uri: string)
    requires IsDeduplicated(r, s, filter)
    ensures Found(r, uri, filter) == Selected(s, filter, uri)
    ensures Found(r, uri, filter).Some? <==> Found(s, uri, filter).Some?
    ensures Found(r, uri, filter) != Found(s, uri, filter) <==>
              filter == PreferEncrypted && First(s, uri, true).None?
              && First(s, uri, false) != Last(s, uri, false)
  {
    EntriesOfDeduplicated(r, s, filter, uri);
    assert First(r, uri, true) == Last(r, uri, true);
    assert First(r, uri, false) == Last(r, uri, false);
  }

  /** Two unencrypted entries with one uri: lookup keeps the last one, deduplication the first. */
  lemma LookupKeepsTheLast() returns (s: seq<RtpExtension>, r: seq<RtpExtension>)
    ensures IsDeduplicated(r, s, PreferEncrypted)
    ensures Found(s, "mid", PreferEncrypted) == Some(RtpExtension("mid", 2, false))
    ensures Found(r, "mid", PreferEncrypted) == Some(RtpExtension("mid", 1, false))
  {
    var first, second := RtpExtension("mid", 1, false), RtpExtension("mid", 2, false);
    s, r := [first, second], [first];
    forall uri, encrypt
      ensures First(s, uri, encrypt) == First(r, uri, encrypt)
              == if Matches(first, uri, encrypt) then Some(first) else None
    {
      assert s[..1] == r && r[..0] == [];
    }
    LookupAfterDeduplication(r, s, PreferEncrypted, "mid");
  }
}
