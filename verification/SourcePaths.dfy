/** The source paths of generated media: service/generated_resource.go, with the key escaping of RFC 6901, section 3. */
module SourcePaths {
  import opened Text
  import opened GeneratedMedia
  import opened Wrappers

  // ---------------------------------------------------------------- escaping

  function Escape(key: string): string {
    ReplaceAll(ReplaceAll(key, "~", "~0"), "/", "~1")
  }

  /** Reading an escaped key back, in the order section 4 of RFC 6901 prescribes. */
  function Unescape(token: string): string {
    ReplaceAll(ReplaceAll(token, "~1", "/"), "~0", "~")
  }

  /** The same, character by character. */
  function Escaped(key: string): string {
    if key == "" then ""
    else (if key[0] == '~' then "~0" else if key[0] == '/' then "~1" else [key[0]]) + Escaped(key[1..])
  }

  function TildesEscaped(key: string): string {
    if key == "" then "" else (if key[0] == '~' then "~0" else [key[0]]) + TildesEscaped(key[1..])
  }

  lemma Copy(c: char, rest: string, find: string, put: string)
    requires find != "" && (c != find[0] || (|find| == 2 && rest != "" && rest[0] != find[1]))
    ensures ReplaceAll([c] + rest, find, put) == [c] + ReplaceAll(rest, find, put)
  {
  }

  lemma Hit(rest: string, find: string, put: string)
    requires find != ""
    ensures ReplaceAll(find + rest, find, put) == put + ReplaceAll(rest, find, put)
  {
  }

  lemma HeadTail(key: string)
    requires key != ""
    ensures key == [key[0]] + key[1..]
  {
  }

  lemma {:induction false} FirstPass(key: string)
    ensures ReplaceAll(key, "~", "~0") == TildesEscaped(key)
  {
    hide ReplaceAll;
    if key == "" {
      NothingToReplace("~", "~0");
    } else {
      var rest := key[1..];
      HeadTail(key);
      FirstPass(rest);
      if key[0] == '~' {
        assert [key[0]] == "~";
        Hit(rest, "~", "~0");
      } else {
        Copy(key[0], rest, "~", "~0");
      }
    }
  }

  lemma NothingToReplace(find: string, put: string)
    requires find != ""
    ensures ReplaceAll("", find, put) == ""
  {
  }

  /** A pair of characters in front. */
  lemma Pair(a: char, b: char, rest: string)
    ensures [a, b] + rest == [a] + ([b] + rest)
  {
  }

  lemma {:induction false} SecondPass(key: string)
    ensures ReplaceAll(TildesEscaped(key), "/", "~1") == Escaped(key)
  {
    hide ReplaceAll;
    if key == "" {
      NothingToReplace("/", "~1");
    } else {
      var rest := TildesEscaped(key[1..]);
      SecondPass(key[1..]);
      if key[0] == '~' {
        Pair('~', '0', rest);
        Copy('~', ['0'] + rest, "/", "~1");
        Copy('0', rest, "/", "~1");
        Pair('~', '0', Escaped(key[1..]));
      } else if key[0] == '/' {
        assert [key[0]] == "/";
        Hit(rest, "/", "~1");
      } else {
        Copy(key[0], rest, "/", "~1");
      }
    }
  }

  lemma EscapeIs(key: string)
    ensures Escape(key) == Escaped(key)
  {
    FirstPass(key);
    SecondPass(key);
  }

  /** An escaped key holds no bare slash. */
  lemma {:induction false} NoSlash(key: string)
    ensures '/' !in Escape(key)
  {
    EscapeIs(key);
    if key != "" {
      EscapeIs(key[1..]);
      NoSlash(key[1..]);
    }
  }

  lemma {:induction false} UndoFirst(key: string)
    ensures ReplaceAll(Escaped(key), "~1", "/") == TildesEscaped(key)
  {
    hide ReplaceAll;
    if key == "" {
      NothingToReplace("~1", "/");
    } else {
      var rest := Escaped(key[1..]);
      UndoFirst(key[1..]);
      if key[0] == '~' {
        Pair('~', '0', rest);
        Copy('~', ['0'] + rest, "~1", "/");
        Copy('0', rest, "~1", "/");
        Pair('~', '0', TildesEscaped(key[1..]));
      } else if key[0] == '/' {
        Hit(rest, "~1", "/");
        assert [key[0]] == "/";
      } else {
        Copy(key[0], rest, "~1", "/");
      }
    }
  }

  lemma {:induction false} UndoSecond(key: string)
    ensures ReplaceAll(TildesEscaped(key), "~0", "~") == key
  {
    hide ReplaceAll;
    if key == "" {
      NothingToReplace("~0", "~");
    } else {
      var rest := TildesEscaped(key[1..]);
      UndoSecond(key[1..]);
      HeadTail(key);
      if key[0] == '~' {
        Hit(rest, "~0", "~");
        assert [key[0]] == "~";
      } else {
        Copy(key[0], rest, "~0", "~");
      }
    }
  }

  /** Escaping loses nothing: the decoding of RFC 6901 gives the key back. */
  lemma EscapeRoundTrip(key: string)
    ensures Unescape(Escape(key)) == key
  {
    EscapeIs(key);
    UndoFirst(key);
    UndoSecond(key);
  }

  // ---------------------------------------------------------------- indices

  const DIGITS := "0123456789"

  function Itoa(n: nat): (s: string)
    ensures s != ""
  {
    if n < 10 then [DIGITS[n]] else Itoa(n / 10) + [DIGITS[n % 10]]
  }

  function DigitValue(c: char): nat {
    if '0' <= c <= '9' then c as int - '0' as int else 0
  }

  function Atoi(s: string): nat {
    if s == "" then 0 else Atoi(s[..|s| - 1]) * 10 + DigitValue(s[|s| - 1])
  }

  lemma {:induction false} ItoaRoundTrip(n: nat)
    ensures Atoi(Itoa(n)) == n && '/' !in Itoa(n)
    decreases n
  {
    var s := Itoa(n);
    if n >= 10 {
      ItoaRoundTrip(n / 10);
      assert s[..|s| - 1] == Itoa(n / 10);
    } else {
      assert s[..0] == "";
    }
  }

  // ---------------------------------------------------------------- nodes and their paths

  /** What the inline media lookup and the decoding of the data find at an object. */
  datatype Media = NoMedia | Undecodable | Decodable(sha: string, size: nat, mime: string)

  datatype Field = Field(key: string, value: Json)

  /** A decoded JSON value, the keys of each object in sorted order. */
  datatype Json = Scalar | Array(items: seq<Json>) | Object(media: Media, fields: seq<Field>)

  predicate DistinctKeys(fields: seq<Field>) {
    forall i, j :: 0 <= i < j < |fields| ==> fields[i].key != fields[j].key
  }

  ghost predicate WellFormed(value: Json) {
    match value
    case Scalar => true
    case Array(items) => forall i :: 0 <= i < |items| ==> WellFormed(items[i])
    case Object(_, fields) => DistinctKeys(fields) && forall i :: 0 <= i < |fields| ==> WellFormed(fields[i].value)
  }

  datatype Step = Index(i: nat) | Key(key: string)

  type Address = seq<Step>

  function Segment(step: Step): string {
    match step
    case Index(i) => Itoa(i)
    case Key(key) => Escape(key)
  }

  /** The path string as the collector builds it up. */
  function PathOf(address: Address): string {
    if address == [] then "$" else PathOf(address[..|address| - 1]) + "/" + Segment(address[|address| - 1])
  }

  /** The steps lead from the root to a node. */
  ghost predicate Leads(value: Json, address: Address)
    decreases |address|
  {
    address == [] ||
    match address[0]
    case Index(i) => value.Array? && i < |value.items| && Leads(value.items[i], address[1..])
    case Key(key) =>
      value.Object? && exists i ::
        0 <= i < |value.fields| && value.fields[i].key == key && Leads(value.fields[i].value, address[1..])
  }

  /** The part of a path behind the root. */
  function Tail(address: Address): string {
    if address == [] then "" else "/" + Segment(address[0]) + Tail(address[1..])
  }

  lemma {:induction false} TailGrows(address: Address, step: Step)
    ensures Tail(address + [step]) == Tail(address) + ("/" + Segment(step))
  {
    hide Segment;
    if address == [] {
      assert [step][1..] == [];
      EmptySides("/" + Segment(step));
    } else {
      assert (address + [step])[1..] == address[1..] + [step];
      TailGrows(address[1..], step);
      Assoc("/" + Segment(address[0]), Tail(address[1..]), "/" + Segment(step));
    }
  }

  lemma {:induction false} PathIs(address: Address)
    ensures PathOf(address) == "$" + Tail(address)
  {
    hide Segment;
    if address != [] {
      var front, last := address[..|address| - 1], address[|address| - 1];
      assert address == front + [last];
      PathIs(front);
      TailGrows(front, last);
      Assoc("$" + Tail(front), "/", Segment(last));
      Assoc("$", Tail(front), "/" + Segment(last));
    }
  }

  lemma SegmentHasNoSlash(step: Step)
    ensures '/' !in Segment(step)
  {
    match step
    case Index(i) => ItoaRoundTrip(i);
    case Key(key) => NoSlash(key);
  }

  function FirstSlash(text: string): nat {
    if text == "" || text[0] == '/' then 0 else 1 + FirstSlash(text[1..])
  }

  lemma {:induction false} SlashBehind(a: string, s: string)
    requires '/' !in a && (s == "" || s[0] == '/')
    ensures FirstSlash(a + s) == |a|
  {
    if a == "" {
      EmptySides(s);
    } else {
      assert (a + s)[1..] == a[1..] + s;
      SlashBehind(a[1..], s);
    }
  }

  /** Two texts without a slash, each followed by nothing or a slash: the first parts are where the slash is. */
  lemma SameFirstPart(a: string, s: string, b: string, t: string)
    requires a + s == b + t && '/' !in a && '/' !in b
    requires (s == "" || s[0] == '/') && (t == "" || t[0] == '/')
    ensures a == b && s == t
  {
    SlashBehind(a, s);
    SlashBehind(b, t);
    assert a == (a + s)[..|a|] && b == (b + t)[..|b|];
    assert s == (a + s)[|a|..] && t == (b + t)[|b|..];
  }

  lemma SameSteps(a: Step, b: Step)
    requires Segment(a) == Segment(b) && (a.Index? <==> b.Index?)
    ensures a == b
  {
    if a.Index? {
      ItoaRoundTrip(a.i);
      ItoaRoundTrip(b.i);
    } else {
      EscapeRoundTrip(a.key);
      EscapeRoundTrip(b.key);
    }
  }

  lemma TailCut(address: Address)
    requires address != []
    ensures Tail(address) != "" && Tail(address)[0] == '/'
    ensures Tail(address)[1..] == Segment(address[0]) + Tail(address[1..])
  {
    Assoc("/", Segment(address[0]), Tail(address[1..]));
  }

  lemma {:induction false} SameTailSameNode(value: Json, a: Address, b: Address)
    requires WellFormed(value) && Leads(value, a) && Leads(value, b) && Tail(a) == Tail(b)
    ensures a == b
    decreases |a|
  {
    hide Tail, Segment;
    TailOfRoot();
    if a != [] {
      TailCut(a);
    }
    if b != [] {
      TailCut(b);
    }
    if a != [] && b != [] {
      FirstSteps(a, b);
      SameSteps(a[0], b[0]);
      match a[0] {
        case Index(i) => SameTailSameNode(value.items[i], a[1..], b[1..]);
        case Key(key) =>
          var i :| 0 <= i < |value.fields| && value.fields[i].key == key && Leads(value.fields[i].value, a[1..]);
          var j :| 0 <= j < |value.fields| && value.fields[j].key == key && Leads(value.fields[j].value, b[1..]);
          assert i == j;
          SameTailSameNode(value.fields[i].value, a[1..], b[1..]);
      }
      assert a == [a[0]] + a[1..] && b == [b[0]] + b[1..];
    }
  }

  lemma TailOfRoot()
    ensures Tail([]) == ""
  {
  }

  lemma FirstSteps(a: Address, b: Address)
    requires a != [] && b != [] && Tail(a) == Tail(b)
    ensures Segment(a[0]) == Segment(b[0]) && Tail(a[1..]) == Tail(b[1..])
  {
    hide Segment;
    TailCut(a);
    TailCut(b);
    SegmentHasNoSlash(a[0]);
    SegmentHasNoSlash(b[0]);
    TailStart(a[1..]);
    TailStart(b[1..]);
    SameFirstPart(Segment(a[0]), Tail(a[1..]), Segment(b[0]), Tail(b[1..]));
  }

  lemma TailStart(address: Address)
    ensures Tail(address) == "" || Tail(address)[0] == '/'
  {
  }

  /** Distinct nodes of one value have distinct paths. */
  lemma PathsAreDistinct(value: Json, a: Address, b: Address)
    requires WellFormed(value) && Leads(value, a) && Leads(value, b)
    ensures PathOf(a) == PathOf(b) <==> a == b
  {
    PathIs(a);
    PathIs(b);
    if PathOf(a) == PathOf(b) {
      assert Tail(a) == PathOf(a)[1..] && Tail(b) == PathOf(b)[1..];
      SameTailSameNode(value, a, b);
    }
  }

  /** It takes one value: an index and a key of two different values can make the same path. */
  lemma IndexAndKeyCollide()
    ensures PathOf([Index(0)]) == PathOf([Key("0")])
  {
  }

  // ---------------------------------------------------------------- collecting the media

  datatype Site = Site(address: Address, media: Media)

  /** The objects with decodable media: the object itself before its members, members in order. */
  function Sites(value: Json, address: Address): seq<Site>
    decreases value, 1, 0
  {
    match value
    case Scalar => []
    case Array(items) => ItemSites(value, 0, address)
    case Object(media, fields) =>
      (if media.Decodable? then [Site(address, media)] else []) + FieldSites(value, 0, address)
  }

  function ItemSites(value: Json, from: nat, address: Address): seq<Site>
    requires value.Array? && from <= |value.items|
    decreases value, 0, |value.items| - from
  {
    if from == |value.items| then []
    else Sites(value.items[from], address + [Index(from)]) + ItemSites(value, from + 1, address)
  }

  function FieldSites(value: Json, from: nat, address: Address): seq<Site>
    requires value.Object? && from <= |value.fields|
    decreases value, 0, |value.fields| - from
  {
    if from == |value.fields| then []
    else Sites(value.fields[from].value, address + [Key(value.fields[from].key)]) + FieldSites(value, from + 1, address)
  }

  predicate Broken(value: Json) {
    match value
    case Scalar => false
    case Array(items) => exists i :: 0 <= i < |items| && Broken(items[i])
    case Object(media, fields) => media == Undecodable || exists i :: 0 <= i < |fields| && Broken(fields[i].value)
  }

  predicate Decoded(sites: seq<Site>) {
    forall k :: 0 <= k < |sites| ==> sites[k].media.Decodable?
  }

  function CandidateAt(site: Site): Candidate
    requires site.media.Decodable?
  {
    Candidate(PathOf(site.address), site.media.sha, site.media.size, site.media.mime, None, "", false, false)
  }

  function Candidates(sites: seq<Site>): seq<Candidate>
    requires Decoded(sites)
  {
    seq(|sites|, k requires 0 <= k < |sites| => CandidateAt(sites[k]))
  }

  lemma {:induction false} SitesDecoded(value: Json, address: Address)
    ensures Decoded(Sites(value, address))
    decreases value, 1, 0
  {
    match value
    case Scalar =>
    case Array(_) => ItemSitesDecoded(value, 0, address);
    case Object(_, _) => FieldSitesDecoded(value, 0, address);
  }

  lemma {:induction false} ItemSitesDecoded(value: Json, from: nat, address: Address)
    requires value.Array? && from <= |value.items|
    ensures Decoded(ItemSites(value, from, address))
    decreases value, 0, |value.items| - from
  {
    if from < |value.items| {
      SitesDecoded(value.items[from], address + [Index(from)]);
      ItemSitesDecoded(value, from + 1, address);
    }
  }

  lemma {:induction false} FieldSitesDecoded(value: Json, from: nat, address: Address)
    requires value.Object? && from <= |value.fields|
    ensures Decoded(FieldSites(value, from, address))
    decreases value, 0, |value.fields| - from
  {
    if from < |value.fields| {
      SitesDecoded(value.fields[from].value, address + [Key(value.fields[from].key)]);
      FieldSitesDecoded(value, from + 1, address);
    }
  }

  lemma CandidatesJoin(a: seq<Site>, b: seq<Site>)
    requires Decoded(a) && Decoded(b)
    ensures Decoded(a + b) && Candidates(a + b) == Candidates(a) + Candidates(b)
  {
  }

  lemma Joins(a: seq<Candidate>, b: seq<Candidate>, c: seq<Candidate>)
    ensures a + (b + c) == a + b + c && a + [] == a
  {
  }

  lemma PathGrows(address: Address, step: Step)
    ensures PathOf(address + [step]) == PathOf(address) + "/" + Segment(step)
  {
  }

  /**
   * Walk the value and append a candidate for each object with media; data that cannot be decoded is skipped or ends
   * the walk.
   */
  method Collect(value: Json, path: string, skipInvalid: bool, candidates: seq<Candidate>, ghost address: Address)
    returns (all: seq<Candidate>, ok: bool)
    requires path == PathOf(address)
    ensures ok <==> skipInvalid || !Broken(value)
    ensures Decoded(Sites(value, address)) && (ok ==> all == candidates + Candidates(Sites(value, address)))
    decreases value, 1
  {
    hide PathOf, CandidateAt, Escape, Itoa;
    SitesDecoded(value, address);
    Joins(candidates, [], []);
    all, ok := candidates, true;
    match value {
      case Scalar =>
      case Array(items) =>
        ItemSitesDecoded(value, 0, address);
        for i := 0 to |items|
          invariant Decoded(ItemSites(value, i, address))
          invariant skipInvalid || forall j :: 0 <= j < i ==> !Broken(items[j])
          invariant all + Candidates(ItemSites(value, i, address))
                      == candidates + Candidates(ItemSites(value, 0, address))
        {
          ghost var here := address + [Index(i)];
          PathGrows(address, Index(i));
          ItemSitesDecoded(value, i + 1, address);
          SitesDecoded(items[i], here);
          CandidatesJoin(Sites(items[i], here), ItemSites(value, i + 1, address));
          Joins(all, Candidates(Sites(items[i], here)), Candidates(ItemSites(value, i + 1, address)));
          all, ok := Collect(items[i], path + "/" + Itoa(i), skipInvalid, all, here);
          if !ok {
            return;
          }
        }
        Joins(all, [], []);
      case Object(media, fields) =>
        FieldSitesDecoded(value, 0, address);
        ghost var own := if media.Decodable? then [Site(address, media)] else [];
        CandidatesJoin(own, FieldSites(value, 0, address));
        if media == Undecodable && !skipInvalid {
          return all, false;
        }
        if media.Decodable? {
          all := all + [Candidate(path, media.sha, media.size, media.mime, None, "", false, false)];
          OwnCandidate(path, address, media);
        }
        Joins(candidates, Candidates(own), Candidates(FieldSites(value, 0, address)));
        all, ok := CollectFields(value, path, skipInvalid, all, address);
    }
  }

  lemma OwnCandidate(path: string, address: Address, media: Media)
    requires path == PathOf(address) && media.Decodable?
    ensures Candidates([Site(address, media)])
              == [Candidate(path, media.sha, media.size, media.mime, None, "", false, false)]
  {
  }

  method CollectFields(value: Json, path: string, skipInvalid: bool, candidates: seq<Candidate>, ghost address: Address)
    returns (all: seq<Candidate>, ok: bool)
    requires value.Object? && path == PathOf(address)
    ensures ok <==> skipInvalid || forall j :: 0 <= j < |value.fields| ==> !Broken(value.fields[j].value)
    ensures Decoded(FieldSites(value, 0, address))
    ensures ok ==> all == candidates + Candidates(FieldSites(value, 0, address))
    decreases value, 0
  {
    hide PathOf, CandidateAt, Escape, Itoa;
    all, ok := candidates, true;
    FieldSitesDecoded(value, 0, address);
    for i := 0 to |value.fields|
      invariant Decoded(FieldSites(value, i, address))
      invariant skipInvalid || forall j :: 0 <= j < i ==> !Broken(value.fields[j].value)
      invariant all + Candidates(FieldSites(value, i, address))
                  == candidates + Candidates(FieldSites(value, 0, address))
    {
      var field := value.fields[i];
      ghost var here := address + [Key(field.key)];
      PathGrows(address, Key(field.key));
      FieldSitesDecoded(value, i + 1, address);
      SitesDecoded(field.value, here);
      CandidatesJoin(Sites(field.value, here), FieldSites(value, i + 1, address));
      Joins(all, Candidates(Sites(field.value, here)), Candidates(FieldSites(value, i + 1, address)));
      all, ok := Collect(field.value, path + "/" + Escape(field.key), skipInvalid, all, here);
      if !ok {
        return;
      }
    }
    Joins(all, [], []);
  }

  // ---------------------------------------------------------------- no two candidates share a path

  /** The site lies below `base`, where its steps lead. */
  ghost predicate Below(value: Json, base: Address, site: Site) {
    base <= site.address && Leads(value, site.address[|base|..])
  }

  lemma Deeper(base: Address, step: Step, address: Address)
    requires base + [step] <= address
    ensures base <= address && |address| > |base| && address[|base|] == step
    ensures address[|base|..] == [step] + address[|base| + 1..] && address[|base| + 1..] == address[|base + [step]|..]
  {
  }

  ghost predicate DistinctSites(sites: seq<Site>) {
    forall i, j :: 0 <= i < j < |sites| ==> sites[i].address != sites[j].address
  }

  /** The site lies in item `k`, or in a later one. */
  ghost predicate FromItem(value: Json, from: nat, base: Address, site: Site)
    requires value.Array?
  {
    exists k :: from <= k < |value.items| && Below(value.items[k], base + [Index(k)], site)
  }

  ghost predicate FromField(value: Json, from: nat, base: Address, site: Site)
    requires value.Object?
  {
    exists k :: from <= k < |value.fields| && Below(value.fields[k].value, base + [Key(value.fields[k].key)], site)
  }

  lemma ItemIsBelow(value: Json, base: Address, site: Site)
    requires value.Array? && FromItem(value, 0, base, site)
    ensures Below(value, base, site) && |site.address| > |base|
  {
  }

  lemma FieldIsBelow(value: Json, base: Address, site: Site)
    requires value.Object? && FromField(value, 0, base, site)
    ensures Below(value, base, site) && |site.address| > |base|
  {
  }

  /** Sites in one item, and in a later one, are different. */
  lemma ItemsApart(value: Json, from: nat, base: Address, one: Site, other: Site)
    requires value.Array? && from < |value.items|
    requires Below(value.items[from], base + [Index(from)], one) && FromItem(value, from + 1, base, other)
    ensures one.address != other.address
  {
    var k :| from + 1 <= k < |value.items| && Below(value.items[k], base + [Index(k)], other);
    Deeper(base, Index(from), one.address);
    Deeper(base, Index(k), other.address);
  }

  lemma FieldsApart(value: Json, from: nat, base: Address, one: Site, other: Site)
    requires value.Object? && DistinctKeys(value.fields) && from < |value.fields|
    requires Below(value.fields[from].value, base + [Key(value.fields[from].key)], one)
    requires FromField(value, from + 1, base, other)
    ensures one.address != other.address
  {
    var k :| from + 1 <= k < |value.fields| && Below(value.fields[k].value, base + [Key(value.fields[k].key)], other);
    Deeper(base, Key(value.fields[from].key), one.address);
    Deeper(base, Key(value.fields[k].key), other.address);
  }

  lemma DistinctJoin(a: seq<Site>, b: seq<Site>)
    requires DistinctSites(a) && DistinctSites(b)
    requires forall i, j :: 0 <= i < |a| && 0 <= j < |b| ==> a[i].address != b[j].address
    ensures DistinctSites(a + b)
  {
  }

  lemma {:induction false} SitesBelow(value: Json, base: Address)
    requires WellFormed(value)
    ensures forall k :: 0 <= k < |Sites(value, base)| ==> Below(value, base, Sites(value, base)[k])
    ensures DistinctSites(Sites(value, base))
    decreases value, 1, 0
  {
    hide Below, FromItem, FromField;
    match value
    case Scalar =>
    case Array(items) =>
      ItemSitesBelow(value, 0, base);
      forall k | 0 <= k < |Sites(value, base)| ensures Below(value, base, Sites(value, base)[k]) {
        ItemIsBelow(value, base, Sites(value, base)[k]);
      }
    case Object(media, fields) =>
      FieldSitesBelow(value, 0, base);
      var own, rest := if media.Decodable? then [Site(base, media)] else [], FieldSites(value, 0, base);
      OwnIsBelow(value, base, media);
      forall k | 0 <= k < |rest| ensures Below(value, base, rest[k]) && rest[k].address != base {
        FieldIsBelow(value, base, rest[k]);
      }
      DistinctJoin(own, rest);
  }

  lemma OwnIsBelow(value: Json, base: Address, media: Media)
    ensures Below(value, base, Site(base, media))
  {
  }

  lemma {:induction false} ItemSitesBelow(value: Json, from: nat, base: Address)
    requires WellFormed(value) && value.Array? && from <= |value.items|
    ensures forall k :: 0 <= k < |ItemSites(value, from, base)| ==>
              FromItem(value, from, base, ItemSites(value, from, base)[k])
    ensures DistinctSites(ItemSites(value, from, base))
    decreases value, 0, |value.items| - from
  {
    hide Below;
    if from < |value.items| {
      var here := base + [Index(from)];
      SitesBelow(value.items[from], here);
      ItemSitesBelow(value, from + 1, base);
      var first, rest := Sites(value.items[from], here), ItemSites(value, from + 1, base);
      forall i, j | 0 <= i < |first| && 0 <= j < |rest| ensures first[i].address != rest[j].address {
        ItemsApart(value, from, base, first[i], rest[j]);
      }
      DistinctJoin(first, rest);
      assert forall j :: 0 <= j < |rest| ==> FromItem(value, from, base, rest[j]);
    }
  }

  lemma {:induction false} FieldSitesBelow(value: Json, from: nat, base: Address)
    requires WellFormed(value) && value.Object? && from <= |value.fields|
    ensures forall k :: 0 <= k < |FieldSites(value, from, base)| ==>
              FromField(value, from, base, FieldSites(value, from, base)[k])
    ensures DistinctSites(FieldSites(value, from, base))
    decreases value, 0, |value.fields| - from
  {
    hide Below;
    if from < |value.fields| {
      var here := base + [Key(value.fields[from].key)];
      SitesBelow(value.fields[from].value, here);
      FieldSitesBelow(value, from + 1, base);
      var first, rest := Sites(value.fields[from].value, here), FieldSites(value, from + 1, base);
      forall i, j | 0 <= i < |first| && 0 <= j < |rest| ensures first[i].address != rest[j].address {
        FieldsApart(value, from, base, first[i], rest[j]);
      }
      DistinctJoin(first, rest);
      assert forall j :: 0 <= j < |rest| ==> FromField(value, from, base, rest[j]);
    }
  }

  /** The candidates of one generated result all have different paths, and nothing is reserved for them yet. */
  lemma CandidatesAreDistinct(value: Json)
    requires WellFormed(value)
    ensures Decoded(Sites(value, []))
    ensures DistinctPaths(Candidates(Sites(value, [])))
    ensures forall k :: 0 <= k < |Sites(value, [])| ==> Fresh(Candidates(Sites(value, []))[k])
  {
    hide PathOf, WellFormed, Leads;
    SitesDecoded(value, []);
    SitesBelow(value, []);
    var sites := Sites(value, []);
    forall i, j | 0 <= i < j < |sites| ensures PathOf(sites[i].address) != PathOf(sites[j].address) {
      assert Below(value, [], sites[i]) && Below(value, [], sites[j]);
      PathsAreDistinct(value, sites[i].address, sites[j].address);
    }
  }

  /** The candidates of a result, as the walk collects them. */
  ghost function CandidatesOf(value: Json): seq<Candidate>
    requires WellFormed(value)
  {
    CandidatesAreDistinct(value);
    Candidates(Sites(value, []))
  }

  /** Collect, then persist: the candidates of a result meet what the quota accounting needs, whatever the result is. */
  method PersistValue(service: UploadService, value: Json, skipInvalid: bool, options: Options, alone: bool,
                      calm: bool)
    returns (done: seq<Candidate>, ok: bool, ghost back: set<nat>)
    requires WellFormed(value) && service.Books([]) && (options.source.Some? ==> options.enforceQuota)
    modifies service
    ensures service.Books([]) && Grown(old(service.rows), service.rows)
    ensures Broken(value) && !skipInvalid ==>
              !ok && service.rows == old(service.rows) && service.daily == old(service.daily)
    ensures ok ==> |done| == |Sites(value, [])| && forall k :: 0 <= k < |done| ==>
              Done(done[k]) && done[k].path == PathOf(Sites(value, [])[k].address)
    ensures LostByFailure(service.lost, service.failedReleases, old(service.lost), old(service.failedReleases))
    ensures GivenExactly(done, ok, back, service.Own(), old(service.Own()), |old(service.rows)|)
    ensures alone ==> service.Others() == old(service.Others()) && back == {}
    ensures alone && service.failedReleases == old(service.failedReleases) ==> forall day: Day ::
              service.DailyBytes(day) - Carried(service.rows, service.Unpaid(), day)
              == old(service.DailyBytes(day) - Carried(service.rows, service.Unpaid(), day))
    ensures var cs := CandidatesOf(value);
            alone && calm && (skipInvalid || !Broken(value)) && old(service.Unhindered(cs, options)) ==>
              ok && RowsCompleted(old(service.rows), service.rows, options, done)
  {
    hide Broken, WellFormed, Done, Grown, GivenExactly, Carried, RowsCompleted;
    Unchanged(service.rows);
    assert PathOf([]) == "$";
    var candidates;
    back := {};
    candidates, ok := Collect(value, "$", skipInvalid, [], []);
    if !ok {
      NothingGiven([], ok, service.Own(), |service.rows|);
      return [], false, {};
    }
    CandidatesAreDistinct(value);
    assert [] + Candidates(Sites(value, [])) == Candidates(Sites(value, []));
    done, ok, back := service.PersistGeneratedMedia(candidates, options, alone, calm);
  }

  lemma Unchanged(rows: seq<Resource>)
    ensures Grown(rows, rows)
  {
  }
}
