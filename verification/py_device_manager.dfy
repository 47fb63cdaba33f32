/**
 * The Python `DeviceManager`: the list of connected devices, rebuilt by
 * `enumerate` and kept up to date by the hot-plug handlers. Each device
 * object has an identity of its own (Python object identity), so
 * `list.remove` drops exactly that object. Native enumeration is given as
 * one list of entries per product, in the order of the product table.
 */
module PyDeviceManager {
  import opened Common

  /** One `(vid, pid, class_type)` row of the product table. */
  datatype Product = Product(vid: int, pid: int, cls: string)

  /** The field of an enumerated entry the manager uses. */
  datatype Entry = Entry(path: string)

  /**
   * Which transport object a device was built on: `enumerate` gives each
   * device a transport of its own, the hot-plug handlers hand every device
   * the manager's one `self.transport`.
   */
  datatype Transport = OwnTransport | SharedTransport

  /** A device object: its identity, its class, its path and its transport. */
  datatype Dock = Dock(id: nat, cls: string, path: string, transport: Transport)

  /** How an addition handler recognises the entry to open. */
  datatype Match =
    | Exact(path: string)      // `device_info['path'] == device_path`
    | Suffix(suffix: string)   // `d['path'].endswith(full_path)`

  // ---------------------------------------------------------------------
  // String helpers (`endswith`, `find`, `split`, `int(_, 16)`)
  // ---------------------------------------------------------------------

  /** `s.endswith(suffix)`. */
  predicate EndsWith(s: string, suffix: string)
  {
    |suffix| <= |s| && s[|s| - |suffix|..] == suffix
  }

  /** `sub` occurs in `s` starting at index `i`. */
  predicate OccursAt(s: string, sub: string, i: int)
  {
    0 <= i <= |s| - |sub| && s[i..i + |sub|] == sub
  }

  /** `s.find(sub) != -1`. */
  predicate Contains(s: string, sub: string)
  {
    exists i | 0 <= i <= |s| - |sub| :: OccursAt(s, sub, i)
  }

  /** `s.split('/')[-1]`: what follows the last slash, or all of `s`. */
  function LastSegment(s: string): (r: string)
    ensures '/' !in r && EndsWith(s, r)
    ensures |r| < |s| ==> s[|s| - |r| - 1] == '/'
  {
    if |s| == 0 then []
    else if s[|s| - 1] == '/' then []
    else LastSegment(s[..|s| - 1]) + [s[|s| - 1]]
  }

  /** The interface path suffix the Linux `add` handler looks for. */
  function InterfaceSuffix(devicePath: string): (r: string)
    ensures EndsWith(r, ":1.0")
  {
    LastSegment(devicePath) + ":1.0"
  }

  predicate IsHexDigit(c: char)
  {
    '0' <= c <= '9' || 'a' <= c <= 'f' || 'A' <= c <= 'F'
  }

  /** A hexadecimal digit's value. */
  function HexDigit(c: char): (r: nat)
    requires IsHexDigit(c)
    ensures r < 16
  {
    if '0' <= c <= '9' then c as nat - '0' as nat
    else if 'a' <= c <= 'f' then c as nat - 'a' as nat + 10
    else c as nat - 'A' as nat + 10
  }

  function Pow16(n: nat): (r: nat)
    ensures r >= 1
  {
    if n == 0 then 1 else 16 * Pow16(n - 1)
  }

  /** `int(s, 16)` on a string of hexadecimal digits; ValueError (None) otherwise. */
  function ParseHex(s: string): (r: Option<nat>)
  {
    if |s| == 0 then None
    else if !IsHexDigit(s[|s| - 1]) then None
    else if |s| == 1 then Some(HexDigit(s[0]))
    else
      var hi := ParseHex(s[..|s| - 1]);
      if hi.None? then None else Some(16 * hi.value + HexDigit(s[|s| - 1]))
  }

  /** A string parses exactly when it is a non-empty run of hexadecimal digits, and the value has at most that many digits. */
  lemma {:induction false} ParseHexAccepts(s: string)
    ensures ParseHex(s).Some? <==> |s| > 0 && forall k | 0 <= k < |s| :: IsHexDigit(s[k])
    ensures ParseHex(s).Some? ==> ParseHex(s).value < Pow16(|s|)
  {
    if |s| > 1 {
      ParseHexAccepts(s[..|s| - 1]);
      assert forall k | 0 <= k < |s| - 1 :: s[..|s| - 1][k] == s[k];
    }
  }

  /** The ids udev reports, parsed; None when one is missing, empty or not hexadecimal. */
  function EventIds(vendor: Option<string>, product: Option<string>): Option<(nat, nat)>
  {
    if vendor.None? || product.None? || |vendor.value| == 0 || |product.value| == 0 then None
    else
      var v := ParseHex(vendor.value);
      var p := ParseHex(product.value);
      if v.None? || p.None? then None else Some((v.value, p.value))
  }

  // ---------------------------------------------------------------------
  // What `enumerate` builds
  // ---------------------------------------------------------------------

  /** The devices `enumerate` creates for one product, one per entry. */
  function ProductDocks(cls: string, entries: seq<Entry>, firstId: nat): (r: seq<Dock>)
    ensures |r| == |entries|
  {
    if |entries| == 0 then []
    else ProductDocks(cls, entries[..|entries| - 1], firstId) + [Dock(firstId + |entries| - 1, cls, entries[|entries| - 1].path, OwnTransport)]
  }

  lemma {:induction false} ProductDocksAt(cls: string, entries: seq<Entry>, firstId: nat)
    ensures forall k | 0 <= k < |entries| :: ProductDocks(cls, entries, firstId)[k] == Dock(firstId + k, cls, entries[k].path, OwnTransport)
  {
    if |entries| > 0 {
      ProductDocksAt(cls, entries[..|entries| - 1], firstId);
    }
  }

  /** The total number of entries. */
  function TotalEntries(found: seq<seq<Entry>>): nat
  {
    if |found| == 0 then 0 else |found[0]| + TotalEntries(found[1..])
  }

  /** The devices `enumerate` creates: product by product, entry by entry. */
  function AllDocks(products: seq<Product>, found: seq<seq<Entry>>, firstId: nat): (r: seq<Dock>)
    requires |found| == |products|
    ensures |r| == TotalEntries(found)
  {
    if |products| == 0 then []
    else ProductDocks(products[0].cls, found[0], firstId) + AllDocks(products[1..], found[1..], firstId + |found[0]|)
  }

  /** One product further through `enumerate`'s outer loop. */
  lemma AllDocksStep(products: seq<Product>, found: seq<seq<Entry>>, i: nat, done: seq<Dock>, id: nat, firstId: nat)
    requires |found| == |products| && i < |products|
    requires done + AllDocks(products[i..], found[i..], id) == AllDocks(products, found, firstId)
    ensures (done + ProductDocks(products[i].cls, found[i], id)) + AllDocks(products[i + 1..], found[i + 1..], id + |found[i]|) ==
      AllDocks(products, found, firstId)
  {
    assert products[i..][1..] == products[i + 1..] && found[i..][1..] == found[i + 1..];
    var here := ProductDocks(products[i].cls, found[i], id);
    var rest := AllDocks(products[i + 1..], found[i + 1..], id + |found[i]|);
    assert (done + here) + rest == done + (here + rest);
  }

  /** The devices `enumerate` creates carry consecutive, hence distinct, identities and a transport each of their own. */
  lemma {:induction false} AllDocksIds(products: seq<Product>, found: seq<seq<Entry>>, firstId: nat)
    requires |found| == |products|
    ensures forall k | 0 <= k < |AllDocks(products, found, firstId)| :: AllDocks(products, found, firstId)[k].id == firstId + k
    ensures forall k | 0 <= k < |AllDocks(products, found, firstId)| :: AllDocks(products, found, firstId)[k].transport == OwnTransport
    ensures DistinctIds(AllDocks(products, found, firstId))
    decreases |products|
  {
    if |products| > 0 {
      AllDocksIds(products[1..], found[1..], firstId + |found[0]|);
      ProductDocksAt(products[0].cls, found[0], firstId);
    }
  }

  // ---------------------------------------------------------------------
  // What the addition handlers build
  // ---------------------------------------------------------------------

  predicate Matches(e: Entry, m: Match)
  {
    match m
    case Exact(path) => e.path == path
    case Suffix(suffix) => EndsWith(e.path, suffix)
  }

  /** The first entry the match accepts. */
  function FirstMatch(entries: seq<Entry>, m: Match): (r: Option<nat>)
    ensures r.Some? ==> (r.value < |entries| && Matches(entries[r.value], m) &&
      forall j | 0 <= j < r.value :: !Matches(entries[j], m))
    ensures r.None? ==> forall j | 0 <= j < |entries| :: !Matches(entries[j], m)
  {
    if |entries| == 0 then None
    else if Matches(entries[0], m) then Some(0)
    else
      var r := FirstMatch(entries[1..], m);
      if r.None? then None else Some(r.value + 1)
  }

  /** Whether a product takes part: every product, or only the one with these ids. */
  predicate Considered(p: Product, only: Option<(nat, nat)>)
  {
    only.None? || (p.vid == only.value.0 && p.pid == only.value.1)
  }

  /** The devices an addition handler creates: at most one per considered product, for its first matching entry. */
  function AdditionDocks(products: seq<Product>, found: seq<seq<Entry>>, m: Match, only: Option<(nat, nat)>,
                         firstId: nat): (r: seq<Dock>)
    requires |found| == |products|
    ensures |r| <= |products|
  {
    if |products| == 0 then []
    else
      var hit := FirstMatch(found[0], m);
      var here := if Considered(products[0], only) && hit.Some? then [Dock(firstId, products[0].cls, found[0][hit.value].path, SharedTransport)] else [];
      here + AdditionDocks(products[1..], found[1..], m, only, firstId + |here|)
  }

  /** Every added device's path is accepted by the match, its identity is new, and it is built on the shared transport. */
  lemma {:induction false} AdditionDocksMatch(products: seq<Product>, found: seq<seq<Entry>>, m: Match,
                                              only: Option<(nat, nat)>, firstId: nat)
    requires |found| == |products|
    ensures forall d | d in AdditionDocks(products, found, m, only, firstId) ::
      Matches(Entry(d.path), m) && d.id >= firstId && d.transport == SharedTransport
  {
    if |products| > 0 {
      var hit := FirstMatch(found[0], m);
      var here := if Considered(products[0], only) && hit.Some? then [Dock(firstId, products[0].cls, found[0][hit.value].path, SharedTransport)] else [];
      var rest := AdditionDocks(products[1..], found[1..], m, only, firstId + |here|);
      AdditionDocksMatch(products[1..], found[1..], m, only, firstId + |here|);
      assert AdditionDocks(products, found, m, only, firstId) == here + rest;
      forall d: Dock | d in here + rest
        ensures Matches(Entry(d.path), m) && d.id >= firstId && d.transport == SharedTransport
      {
        if d in here {
          assert Entry(d.path) == found[0][hit.value];
        }
      }
    }
  }

  /** When no considered product lists an entry the match accepts, nothing is added. */
  lemma {:induction false} AdditionDocksNone(products: seq<Product>, found: seq<seq<Entry>>, m: Match,
                                             only: Option<(nat, nat)>, firstId: nat)
    requires |found| == |products|
    requires forall i, j | 0 <= i < |found| && 0 <= j < |found[i]| && Considered(products[i], only) :: !Matches(found[i][j], m)
    ensures AdditionDocks(products, found, m, only, firstId) == []
  {
    if |products| > 0 {
      forall i, j | 0 <= i < |found[1..]| && 0 <= j < |found[1..][i]| && Considered(products[1..][i], only)
        ensures !Matches(found[1..][i][j], m)
      {
        assert found[1..][i] == found[i + 1] && products[1..][i] == products[i + 1];
      }
      AdditionDocksNone(products[1..], found[1..], m, only, firstId);
    }
  }

  /** One product further through an addition handler's outer loop. */
  lemma AdditionDocksStep(products: seq<Product>, found: seq<seq<Entry>>, m: Match, only: Option<(nat, nat)>, i: nat,
                          done: seq<Dock>, id: nat, firstId: nat)
    requires |found| == |products| && i < |products|
    requires done + AdditionDocks(products[i..], found[i..], m, only, id) == AdditionDocks(products, found, m, only, firstId)
    ensures Considered(products[i], only) && FirstMatch(found[i], m).Some? ==>
      (done + [Dock(id, products[i].cls, found[i][FirstMatch(found[i], m).value].path, SharedTransport)]) +
        AdditionDocks(products[i + 1..], found[i + 1..], m, only, id + 1) ==
      AdditionDocks(products, found, m, only, firstId)
    ensures !(Considered(products[i], only) && FirstMatch(found[i], m).Some?) ==>
      done + AdditionDocks(products[i + 1..], found[i + 1..], m, only, id) == AdditionDocks(products, found, m, only, firstId)
  {
    var ps, fs := products[i..], found[i..];
    assert ps[1..] == products[i + 1..] && fs[1..] == found[i + 1..];
    assert ps[0] == products[i] && fs[0] == found[i];
    var hit := FirstMatch(fs[0], m);
    var here := if Considered(ps[0], only) && hit.Some? then [Dock(id, ps[0].cls, fs[0][hit.value].path, SharedTransport)] else [];
    var rest := AdditionDocks(ps[1..], fs[1..], m, only, id + |here|);
    assert AdditionDocks(ps, fs, m, only, id) == here + rest;
    hide AdditionDocks;
    assert (done + here) + rest == done + (here + rest);
    if here == [] {
      assert done + here == done;
    }
  }

  // ---------------------------------------------------------------------
  // What the Windows `add` check builds
  // ---------------------------------------------------------------------

  /** An enumerated entry with the class its product names. */
  datatype Candidate = Candidate(cls: string, path: string)

  function ProductCandidates(cls: string, entries: seq<Entry>): (r: seq<Candidate>)
    ensures |r| == |entries|
    ensures forall k | 0 <= k < |entries| :: r[k] == Candidate(cls, entries[k].path)
  {
    if |entries| == 0 then [] else [Candidate(cls, entries[0].path)] + ProductCandidates(cls, entries[1..])
  }

  /** Every entry of every product, in enumeration order. */
  function Candidates(products: seq<Product>, found: seq<seq<Entry>>): seq<Candidate>
    requires |found| == |products|
  {
    if |products| == 0 then [] else ProductCandidates(products[0].cls, found[0]) + Candidates(products[1..], found[1..])
  }

  /** With no products left the walk adds nothing. */
  lemma NoCandidates(docks: seq<Dock>, products: seq<Product>, found: seq<seq<Entry>>, id: nat)
    requires |found| == |products| == 0
    ensures AddMissing(docks, Candidates(products, found), id) == docks
  {
  }

  predicate HasPath(docks: seq<Dock>, path: string)
  {
    exists k | 0 <= k < |docks| :: docks[k].path == path
  }

  /** Walks the candidates, appending a new device for each path no device has yet (including those just appended). */
  function AddMissing(docks: seq<Dock>, cands: seq<Candidate>, id: nat): (r: seq<Dock>)
    ensures |docks| <= |r|
    decreases |cands|
  {
    if |cands| == 0 then docks
    else if HasPath(docks, cands[0].path) then AddMissing(docks, cands[1..], id)
    else AddMissing(docks + [Dock(id, cands[0].cls, cands[0].path, SharedTransport)], cands[1..], id + 1)
  }

  /** One entry further through the walk of `AddMissing` over a product's entries. */
  lemma AddMissingStep(docks: seq<Dock>, cls: string, entries: seq<Entry>, j: nat, id: nat)
    requires j <= |entries|
    ensures j == |entries| ==> AddMissing(docks, ProductCandidates(cls, entries[j..]), id) == docks
    ensures j < |entries| && HasPath(docks, entries[j].path) ==>
      AddMissing(docks, ProductCandidates(cls, entries[j..]), id) == AddMissing(docks, ProductCandidates(cls, entries[j + 1..]), id)
    ensures j < |entries| && !HasPath(docks, entries[j].path) ==>
      AddMissing(docks, ProductCandidates(cls, entries[j..]), id) ==
      AddMissing(docks + [Dock(id, cls, entries[j].path, SharedTransport)], ProductCandidates(cls, entries[j + 1..]), id + 1)
  {
    if j < |entries| {
      assert ProductCandidates(cls, entries[j..])[1..] == ProductCandidates(cls, entries[j + 1..]);
    }
  }

  /**
   * The devices present before stay first; every candidate's path is
   * present afterwards; each new device is fresh and built on the shared
   * transport.
   */
  lemma {:induction false} AddMissingFacts(docks: seq<Dock>, cands: seq<Candidate>, id: nat)
    ensures |docks| <= |AddMissing(docks, cands, id)| && AddMissing(docks, cands, id)[..|docks|] == docks
    ensures forall c | c in cands :: HasPath(AddMissing(docks, cands, id), c.path)
    ensures forall k | |docks| <= k < |AddMissing(docks, cands, id)| :: AddMissing(docks, cands, id)[k].id == id + k - |docks|
    ensures forall k | |docks| <= k < |AddMissing(docks, cands, id)| :: AddMissing(docks, cands, id)[k].transport == SharedTransport
    decreases |cands|
  {
    if |cands| > 0 {
      var c := cands[0];
      var next := if HasPath(docks, c.path) then docks else docks + [Dock(id, c.cls, c.path, SharedTransport)];
      var nextId := if HasPath(docks, c.path) then id else id + 1;
      AddMissingFacts(next, cands[1..], nextId);
      var r := AddMissing(docks, cands, id);
      assert r == AddMissing(next, cands[1..], nextId);
      assert r[..|docks|] == r[..|next|][..|docks|];
      assert HasPath(next, c.path) by {
        if !HasPath(docks, c.path) {
          assert next[|docks|].path == c.path;
        }
      }
      assert HasPath(r, c.path) by {
        var k :| 0 <= k < |next| && next[k].path == c.path;
        assert r[k] == r[..|next|][k];
      }
      forall c' | c' in cands ensures HasPath(r, c'.path) {
        if c' != c {
          assert c' in cands[1..];
        }
      }
    }
  }

  lemma {:induction false} AddMissingConcat(docks: seq<Dock>, a: seq<Candidate>, b: seq<Candidate>, id: nat)
    ensures AddMissing(docks, a + b, id) ==
      AddMissing(AddMissing(docks, a, id), b, id + (|AddMissing(docks, a, id)| - |docks|))
    decreases |a|
  {
    AddMissingFacts(docks, a, id);
    if |a| > 0 {
      assert (a + b)[0] == a[0] && (a + b)[1..] == a[1..] + b;
      var c := a[0];
      if HasPath(docks, c.path) {
        AddMissingConcat(docks, a[1..], b, id);
        assert AddMissing(docks, a + b, id) == AddMissing(docks, a[1..] + b, id);
        assert AddMissing(docks, a, id) == AddMissing(docks, a[1..], id);
      } else {
        var next := docks + [Dock(id, c.cls, c.path, SharedTransport)];
        AddMissingConcat(next, a[1..], b, id + 1);
        assert AddMissing(docks, a + b, id) == AddMissing(next, a[1..] + b, id + 1);
        assert AddMissing(docks, a, id) == AddMissing(next, a[1..], id + 1);
      }
    } else {
      assert a + b == b;
    }
  }

  /** One product further through `_check_new_devices_windows`'s outer loop. */
  lemma CandidatesStep(products: seq<Product>, found: seq<seq<Entry>>, i: nat, docks: seq<Dock>, id: nat)
    requires |found| == |products| && i < |products|
    ensures AddMissing(docks, Candidates(products[i..], found[i..]), id) ==
      AddMissing(AddMissing(docks, ProductCandidates(products[i].cls, found[i]), id), Candidates(products[i + 1..], found[i + 1..]),
                 id + (|AddMissing(docks, ProductCandidates(products[i].cls, found[i]), id)| - |docks|))
  {
    assert products[i..][1..] == products[i + 1..] && found[i..][1..] == found[i + 1..];
    AddMissingConcat(docks, ProductCandidates(products[i].cls, found[i]), Candidates(products[i + 1..], found[i + 1..]), id);
  }

  /** Growing a list twice keeps the first prefix, and the opened devices are the grown parts. */
  lemma PrefixStep(docks0: seq<Dock>, before: seq<Dock>, after: seq<Dock>, log0: seq<Dock>, logBefore: seq<Dock>, logAfter: seq<Dock>)
    requires |docks0| <= |before| && before[..|docks0|] == docks0 && logBefore == log0 + before[|docks0|..]
    requires |before| <= |after| && after[..|before|] == before && logAfter == logBefore + after[|before|..]
    ensures |docks0| <= |after| && after[..|docks0|] == docks0 && logAfter == log0 + after[|docks0|..]
  {
    assert after[..|docks0|] == after[..|before|][..|docks0|];
    assert after[|docks0|..] == after[|docks0|..|before|] + after[|before|..];
    assert after[|docks0|..|before|] == before[|docks0|..];
  }

  // ---------------------------------------------------------------------
  // Path sets (the polling loop and the Windows `remove` check)
  // ---------------------------------------------------------------------

  function EntryPaths(entries: seq<Entry>): set<string>
  {
    if |entries| == 0 then {} else EntryPaths(entries[..|entries| - 1]) + {entries[|entries| - 1].path}
  }

  /** Every enumerated path, over all products. */
  function FoundPaths(found: seq<seq<Entry>>): set<string>
  {
    if |found| == 0 then {} else FoundPaths(found[..|found| - 1]) + EntryPaths(found[|found| - 1])
  }

  lemma {:induction false} EntryPathsMembers(entries: seq<Entry>)
    ensures forall p :: p in EntryPaths(entries) <==> exists j | 0 <= j < |entries| :: entries[j].path == p
  {
    if |entries| > 0 {
      EntryPathsMembers(entries[..|entries| - 1]);
      assert forall j | 0 <= j < |entries| - 1 :: entries[..|entries| - 1][j] == entries[j];
    }
  }

  /** A path is found exactly when some product lists an entry with it. */
  lemma {:induction false} FoundPathsMembers(found: seq<seq<Entry>>)
    ensures forall p :: p in FoundPaths(found) <==> exists i, j | 0 <= i < |found| && 0 <= j < |found[i]| :: found[i][j].path == p
  {
    if |found| > 0 {
      FoundPathsMembers(found[..|found| - 1]);
      EntryPathsMembers(found[|found| - 1]);
      assert forall i | 0 <= i < |found| - 1 :: found[..|found| - 1][i] == found[i];
    }
  }

  // ---------------------------------------------------------------------
  // Removal
  // ---------------------------------------------------------------------

  /** The devices whose path differs from `path`, in their order. */
  function WithoutPath(docks: seq<Dock>, path: string): (r: seq<Dock>)
    ensures forall d | d in r :: d in docks && d.path != path
    ensures forall d | d in docks && d.path != path :: d in r
  {
    if |docks| == 0 then []
    else if docks[0].path == path then WithoutPath(docks[1..], path)
    else [docks[0]] + WithoutPath(docks[1..], path)
  }

  /** The devices whose path is still enumerated, in their order. */
  function StillPresent(docks: seq<Dock>, paths: set<string>): (r: seq<Dock>)
    ensures forall d | d in r :: d in docks && d.path in paths
    ensures forall d | d in docks && d.path in paths :: d in r
  {
    if |docks| == 0 then []
    else if docks[0].path !in paths then StillPresent(docks[1..], paths)
    else [docks[0]] + StillPresent(docks[1..], paths)
  }

  /** The devices whose path is not in `gone`, in their order. */
  function WithoutPaths(docks: seq<Dock>, gone: set<string>): (r: seq<Dock>)
    ensures forall d | d in r :: d in docks && d.path !in gone
    ensures forall d | d in docks && d.path !in gone :: d in r
  {
    if |docks| == 0 then []
    else if docks[0].path in gone then WithoutPaths(docks[1..], gone)
    else [docks[0]] + WithoutPaths(docks[1..], gone)
  }

  /** Removing nothing keeps every device. */
  lemma {:induction false} WithoutNoPaths(docks: seq<Dock>)
    ensures WithoutPaths(docks, {}) == docks
  {
    if |docks| > 0 {
      WithoutNoPaths(docks[1..]);
      assert [docks[0]] + docks[1..] == docks;
    }
  }

  /** Removing the paths one at a time is removing them all at once. */
  lemma {:induction false} WithoutPathsStep(docks: seq<Dock>, gone: set<string>, path: string)
    ensures WithoutPath(WithoutPaths(docks, gone), path) == WithoutPaths(docks, gone + {path})
  {
    if |docks| > 0 {
      WithoutPathsStep(docks[1..], gone, path);
      if docks[0].path !in gone {
        assert ([docks[0]] + WithoutPaths(docks[1..], gone))[1..] == WithoutPaths(docks[1..], gone);
      }
    }
  }

  /** Each enumeration lists one run of entries per product. */
  predicate Enumerations(products: seq<Product>, rescans: seq<seq<seq<Entry>>>)
  {
    forall k | 0 <= k < |rescans| :: |rescans[k]| == |products|
  }

  /**
   * The devices the polling loop's addition handler creates for each path
   * in turn, identities continuing from one path to the next; the handler
   * call for the k-th path enumerates afresh and sees `rescans[k]`.
   */
  function PolledAdditions(products: seq<Product>, rescans: seq<seq<seq<Entry>>>, paths: seq<string>, firstId: nat): (r: seq<Dock>)
    requires Enumerations(products, rescans) && |paths| <= |rescans|
    decreases |paths|
  {
    if |paths| == 0 then []
    else
      var before := PolledAdditions(products, rescans, paths[..|paths| - 1], firstId);
      before + AdditionDocks(products, rescans[|paths| - 1], Exact(paths[|paths| - 1]), None, firstId + |before|)
  }

  /** One more path at the end adds the devices its own enumeration shows for it, numbered after the earlier ones. */
  lemma PolledAdditionsSnoc(products: seq<Product>, rescans: seq<seq<seq<Entry>>>, paths: seq<string>, path: string, firstId: nat)
    requires Enumerations(products, rescans) && |paths| < |rescans|
    ensures PolledAdditions(products, rescans, paths + [path], firstId) ==
      PolledAdditions(products, rescans, paths, firstId) +
      AdditionDocks(products, rescans[|paths|], Exact(path), None, firstId + |PolledAdditions(products, rescans, paths, firstId)|)
  {
    assert (paths + [path])[..|paths|] == paths;
  }

  /**
   * A path whose device has gone by the time its handler call enumerates
   * again adds nothing, even though the pass's scan saw it.
   */
  lemma PolledAdditionsGone(products: seq<Product>, rescans: seq<seq<seq<Entry>>>, paths: seq<string>, path: string, firstId: nat)
    requires Enumerations(products, rescans) && |paths| < |rescans|
    requires path !in FoundPaths(rescans[|paths|])
    ensures PolledAdditions(products, rescans, paths + [path], firstId) == PolledAdditions(products, rescans, paths, firstId)
  {
    var found := rescans[|paths|];
    FoundPathsMembers(found);
    AdditionDocksNone(products, found, Exact(path), None, firstId + |PolledAdditions(products, rescans, paths, firstId)|);
    PolledAdditionsSnoc(products, rescans, paths, path, firstId);
  }

  /** Every device created for a list of paths has one of those paths, and a new identity. */
  lemma {:induction false} PolledAdditionsPaths(products: seq<Product>, rescans: seq<seq<seq<Entry>>>, paths: seq<string>, firstId: nat)
    requires Enumerations(products, rescans) && |paths| <= |rescans|
    ensures forall d | d in PolledAdditions(products, rescans, paths, firstId) ::
      d.path in paths && d.id >= firstId && d.transport == SharedTransport
    decreases |paths|
  {
    if |paths| > 0 {
      var init := paths[..|paths| - 1];
      var before := PolledAdditions(products, rescans, init, firstId);
      PolledAdditionsPaths(products, rescans, init, firstId);
      AdditionDocksMatch(products, rescans[|paths| - 1], Exact(paths[|paths| - 1]), None, firstId + |before|);
      forall d | d in PolledAdditions(products, rescans, paths, firstId)
        ensures d.path in paths && d.id >= firstId && d.transport == SharedTransport
      {
        if d in before {
          assert d.path in init;
          var k :| 0 <= k < |init| && init[k] == d.path;
          assert paths[k] == d.path;
        } else {
          assert Matches(Entry(d.path), Exact(paths[|paths| - 1]));
        }
      }
    }
  }

  /** The devices whose identity is not in `ids`, in their order. */
  function WithoutIds(docks: seq<Dock>, ids: set<nat>): (r: seq<Dock>)
    ensures forall d | d in r :: d in docks && d.id !in ids
  {
    if |docks| == 0 then []
    else if docks[0].id in ids then WithoutIds(docks[1..], ids)
    else [docks[0]] + WithoutIds(docks[1..], ids)
  }

  /** The identities of some devices. */
  function IdsOf(docks: seq<Dock>): set<nat>
  {
    set d | d in docks :: d.id
  }

  /** `list.remove(x)`: drops the first element with the identity of `x`. */
  function RemoveFirst(docks: seq<Dock>, id: nat): seq<Dock>
  {
    if |docks| == 0 then []
    else if docks[0].id == id then docks[1..]
    else [docks[0]] + RemoveFirst(docks[1..], id)
  }

  /** The first device whose path occurs in the udev device path. */
  function FirstContained(docks: seq<Dock>, devicePath: string): (r: Option<nat>)
    ensures r.Some? ==> (r.value < |docks| && Contains(devicePath, docks[r.value].path) &&
      forall k | 0 <= k < r.value :: !Contains(devicePath, docks[k].path))
    ensures r.None? ==> forall k | 0 <= k < |docks| :: !Contains(devicePath, docks[k].path)
  {
    if |docks| == 0 then None
    else if Contains(devicePath, docks[0].path) then Some(0)
    else
      var r := FirstContained(docks[1..], devicePath);
      if r.None? then None else Some(r.value + 1)
  }

  /** The Linux `remove` event: drops the first device whose path the udev path contains, and only that one. */
  function RemoveContaining(docks: seq<Dock>, devicePath: string): (r: seq<Dock>)
  {
    match FirstContained(docks, devicePath)
    case None => docks
    case Some(i) => docks[..i] + docks[i + 1..]
  }

  /**
   * The udev `remove` drops at most one device: when two devices' paths
   * both occur in the udev path, only the earlier one leaves, unlike the
   * polling removal, which drops every device with the path.
   */
  lemma {:induction false} RemoveContainingDropsOne(docks: seq<Dock>, devicePath: string)
    ensures FirstContained(docks, devicePath).None? ==> RemoveContaining(docks, devicePath) == docks
    ensures FirstContained(docks, devicePath).Some? ==>
      |RemoveContaining(docks, devicePath)| == |docks| - 1 &&
      forall k | FirstContained(docks, devicePath).value < k < |docks| :: docks[k] in RemoveContaining(docks, devicePath)
  {
    var hit := FirstContained(docks, devicePath);
    if hit.Some? {
      var i := hit.value;
      var r := docks[..i] + docks[i + 1..];
      forall k | i < k < |docks| ensures docks[k] in r {
        assert r[k - 1] == docks[k];
      }
    }
  }

  // ---------------------------------------------------------------------
  // Identities
  // ---------------------------------------------------------------------

  /** No two devices share an identity. */
  predicate DistinctIds(docks: seq<Dock>)
  {
    forall i, j | 0 <= i < j < |docks| :: docks[i].id != docks[j].id
  }

  /** Every identity is below `n`. */
  predicate IdsBelow(docks: seq<Dock>, n: nat)
  {
    forall d | d in docks :: d.id < n
  }

  /** Appending a device with a fresh identity keeps identities distinct. */
  lemma AppendFresh(docks: seq<Dock>, d: Dock, n: nat)
    requires DistinctIds(docks) && IdsBelow(docks, n) && d.id == n
    ensures DistinctIds(docks + [d]) && IdsBelow(docks + [d], n + 1)
  {
    forall i, j | 0 <= i < j < |docks + [d]| ensures (docks + [d])[i].id != (docks + [d])[j].id {
      assert (docks + [d])[i] in docks;
    }
  }

  /** Among distinct identities, an identity names one device. */
  lemma SameIdSameDock(docks: seq<Dock>, a: Dock, b: Dock)
    requires DistinctIds(docks) && a in docks && b in docks && a.id == b.id
    ensures a == b
  {
    var i :| 0 <= i < |docks| && docks[i] == a;
    var j :| 0 <= j < |docks| && docks[j] == b;
    assert !(i < j) && !(j < i);
  }

  lemma {:induction false} WithoutIdsMissing(docks: seq<Dock>, ids: set<nat>, id: nat)
    requires forall d | d in docks :: d.id != id
    ensures WithoutIds(docks, ids) == WithoutIds(docks, ids + {id})
  {
    if |docks| > 0 {
      WithoutIdsMissing(docks[1..], ids, id);
    }
  }

  /** Removing one more identity from a list of distinct identities is `list.remove`. */
  lemma {:induction false} RemoveFirstOfDistinct(docks: seq<Dock>, ids: set<nat>, id: nat)
    requires DistinctIds(docks)
    ensures RemoveFirst(WithoutIds(docks, ids), id) == WithoutIds(docks, ids + {id})
    ensures DistinctIds(WithoutIds(docks, ids))
  {
    if |docks| > 0 {
      RemoveFirstOfDistinct(docks[1..], ids, id);
      if docks[0].id !in ids && docks[0].id == id {
        assert forall d | d in docks[1..] :: d.id != id;
        WithoutIdsMissing(docks[1..], ids, id);
      }
    }
  }

  lemma {:induction false} WithoutNoIds(docks: seq<Dock>)
    ensures WithoutIds(docks, {}) == docks
  {
    if |docks| > 0 {
      WithoutNoIds(docks[1..]);
      assert docks == [docks[0]] + docks[1..];
    }
  }

  /** `list.remove` at a position holding a distinct identity drops exactly that position. */
  lemma {:induction false} RemoveFirstAt(docks: seq<Dock>, i: nat)
    requires DistinctIds(docks) && i < |docks|
    ensures RemoveFirst(docks, docks[i].id) == docks[..i] + docks[i + 1..]
  {
    if i > 0 {
      RemoveFirstAt(docks[1..], i - 1);
      assert docks[1..][..i - 1] == docks[1..i];
      assert docks[1..][i..] == docks[i + 1..];
      assert docks[..i] == [docks[0]] + docks[1..i];
    }
  }

  /** Dropping one position keeps identities distinct and bounded. */
  lemma DropKeepsIds(docks: seq<Dock>, i: nat, n: nat)
    requires DistinctIds(docks) && IdsBelow(docks, n) && i < |docks|
    ensures DistinctIds(docks[..i] + docks[i + 1..]) && IdsBelow(docks[..i] + docks[i + 1..], n)
  {
    var r := docks[..i] + docks[i + 1..];
    assert forall k | 0 <= k < |r| :: r[k] == docks[if k < i then k else k + 1];
    forall d | d in r
      ensures d.id < n
    {
      var k :| 0 <= k < |r| && r[k] == d;
    }
  }

  /** `list.remove` of the device at a position drops that position and keeps identities distinct and bounded. */
  lemma RemoveAtKeepsIds(docks: seq<Dock>, i: nat, n: nat)
    requires DistinctIds(docks) && IdsBelow(docks, n) && i < |docks|
    ensures RemoveFirst(docks, docks[i].id) == docks[..i] + docks[i + 1..]
    ensures DistinctIds(docks[..i] + docks[i + 1..]) && IdsBelow(docks[..i] + docks[i + 1..], n)
  {
    RemoveFirstAt(docks, i);
    DropKeepsIds(docks, i, n);
  }

  lemma {:induction false} WithoutIdsOfPath(docks: seq<Dock>, path: string, ids: set<nat>)
    requires forall d | d in docks :: d.id in ids <==> d.path == path
    ensures WithoutIds(docks, ids) == WithoutPath(docks, path)
  {
    if |docks| > 0 {
      WithoutIdsOfPath(docks[1..], path, ids);
    }
  }

  lemma {:induction false} WithoutIdsOfPresent(docks: seq<Dock>, paths: set<string>, ids: set<nat>)
    requires forall d | d in docks :: d.id in ids <==> d.path !in paths
    ensures WithoutIds(docks, ids) == StillPresent(docks, paths)
  {
    if |docks| > 0 {
      WithoutIdsOfPresent(docks[1..], paths, ids);
    }
  }

  /** A collected device's identity names it and no other device. */
  lemma CollectedIds(docks: seq<Dock>, toRemove: seq<Dock>, d: Dock)
    requires DistinctIds(docks) && d in docks && forall e | e in toRemove :: e in docks
    ensures d.id in IdsOf(toRemove) <==> d in toRemove
  {
    if d.id in IdsOf(toRemove) {
      var e :| e in toRemove && e.id == d.id;
      SameIdSameDock(docks, d, e);
    }
  }

  // ---------------------------------------------------------------------
  // Inner loops that change nothing
  // ---------------------------------------------------------------------

  /** The inner search of the addition handlers: the first matching entry's index, or the length. */
  method FindMatch(entries: seq<Entry>, m: Match) returns (j: nat)
    ensures j <= |entries|
    ensures j < |entries| <==> FirstMatch(entries, m) == Some(j)
    ensures j == |entries| <==> FirstMatch(entries, m).None?
  {
    j := 0;
    while j < |entries|
      invariant 0 <= j <= |entries|
      invariant forall k | 0 <= k < j :: !Matches(entries[k], m)
    {
      if Matches(entries[j], m) {
        return;
      }
      j := j + 1;
    }
  }

  /** The search of the Linux `remove` event: the first device whose path occurs in the udev path, or the length. */
  method FindContaining(docks: seq<Dock>, devicePath: string) returns (i: nat)
    ensures i <= |docks|
    ensures i < |docks| <==> FirstContained(docks, devicePath) == Some(i)
    ensures i == |docks| <==> FirstContained(docks, devicePath).None?
  {
    i := 0;
    while i < |docks|
      invariant 0 <= i <= |docks|
      invariant forall k | 0 <= k < i :: !Contains(devicePath, docks[k].path)
    {
      if Contains(devicePath, docks[i].path) {
        return;
      }
      i := i + 1;
    }
  }

  /** The first loop of `_handle_device_removal`: the devices with the path. */
  method CollectWithPath(docks: seq<Dock>, path: string) returns (toRemove: seq<Dock>)
    ensures forall d | d in toRemove :: d in docks && d.path == path
    ensures forall d | d in docks && d.path == path :: d in toRemove
  {
    toRemove := [];
    var i := 0;
    while i < |docks|
      invariant 0 <= i <= |docks|
      invariant forall d | d in toRemove :: d in docks[..i] && d.path == path
      invariant forall d | d in docks[..i] && d.path == path :: d in toRemove
    {
      if docks[i].path == path {
        toRemove := toRemove + [docks[i]];
      }
      i := i + 1;
    }
    assert docks[..i] == docks;
  }

  /** The first loop of the Windows `remove` check: the devices whose path is no longer enumerated. */
  method CollectMissing(docks: seq<Dock>, paths: set<string>) returns (toRemove: seq<Dock>)
    ensures forall d | d in toRemove :: d in docks && d.path !in paths
    ensures forall d | d in docks && d.path !in paths :: d in toRemove
  {
    toRemove := [];
    var i := 0;
    while i < |docks|
      invariant 0 <= i <= |docks|
      invariant forall d | d in toRemove :: d in docks[..i] && d.path !in paths
      invariant forall d | d in docks[..i] && d.path !in paths :: d in toRemove
    {
      if docks[i].path !in paths {
        toRemove := toRemove + [docks[i]];
      }
      i := i + 1;
    }
    assert docks[..i] == docks;
  }

  /** The enumeration loops of the polling mode and the Windows `remove` check: the set of every found path. */
  method CollectPaths(found: seq<seq<Entry>>) returns (paths: set<string>)
    ensures paths == FoundPaths(found)
  {
    paths := {};
    var i := 0;
    while i < |found|
      invariant 0 <= i <= |found|
      invariant paths == FoundPaths(found[..i])
    {
      var j := 0;
      while j < |found[i]|
        invariant 0 <= j <= |found[i]|
        invariant paths == FoundPaths(found[..i]) + EntryPaths(found[i][..j])
      {
        assert found[i][..j + 1][..j] == found[i][..j];
        paths := paths + {found[i][j].path};
        j := j + 1;
      }
      assert found[i][..j] == found[i];
      assert found[..i + 1][..i] == found[..i];
      i := i + 1;
    }
    assert found[..i] == found;
  }

  class DeviceManager {
    /** The class attribute `streamdocks`. */
    var streamdocks: seq<Dock>
    /** The identity the next created device receives. */
    var nextId: nat
    /** The devices `open()` was called on, oldest first. */
    var openLog: seq<Dock>

    /** Identities are distinct and all below `nextId`. */
    predicate Valid()
      reads this
    {
      DistinctIds(streamdocks) && IdsBelow(streamdocks, nextId)
    }

    constructor()
      ensures Valid() && streamdocks == [] && openLog == []
    {
      streamdocks := [];
      nextId := 0;
      openLog := [];
    }

    /** `enumerate`: clears the list, then adds one device per entry, product by product; none is opened. */
    method Enumerate(products: seq<Product>, found: seq<seq<Entry>>) returns (docks: seq<Dock>)
      requires |found| == |products|
      modifies this`streamdocks, this`nextId
      ensures docks == streamdocks == AllDocks(products, found, old(nextId))
      ensures |streamdocks| == TotalEntries(found)
      ensures forall d | d in streamdocks :: d.transport == OwnTransport
      ensures Valid()
    {
      streamdocks := [];
      ghost var firstId := nextId;
      var i := 0;
      while i < |products|
        invariant 0 <= i <= |products|
        invariant streamdocks + AllDocks(products[i..], found[i..], nextId) == AllDocks(products, found, firstId)
        invariant nextId == firstId + |streamdocks|
      {
        AllDocksStep(products, found, i, streamdocks, nextId, firstId);
        AddProductDocks(products[i].cls, found[i]);
        i := i + 1;
      }
      assert products[i..] == [];
      AllDocksIds(products, found, firstId);
      docks := streamdocks;
    }

    /** The inner loop of `enumerate`: one new device per entry of one product. */
    method AddProductDocks(cls: string, entries: seq<Entry>)
      modifies this`streamdocks, this`nextId
      ensures streamdocks == old(streamdocks) + ProductDocks(cls, entries, old(nextId))
      ensures nextId == old(nextId) + |entries|
    {
      var j := 0;
      while j < |entries|
        invariant 0 <= j <= |entries|
        invariant streamdocks == old(streamdocks) + ProductDocks(cls, entries[..j], old(nextId))
        invariant nextId == old(nextId) + j
      {
        assert entries[..j + 1][..j] == entries[..j];
        streamdocks := streamdocks + [Dock(nextId, cls, entries[j].path, OwnTransport)];
        nextId := nextId + 1;
        j := j + 1;
      }
      assert entries[..j] == entries;
    }

    /**
     * The loop the addition handlers share: for every considered product,
     * the first matching entry becomes a device that is appended and
     * opened; the `break` leaves only the inner loop.
     */
    method AddFirstMatches(products: seq<Product>, found: seq<seq<Entry>>, m: Match, only: Option<(nat, nat)>)
      requires Valid() && |found| == |products|
      modifies this
      ensures streamdocks == old(streamdocks) + AdditionDocks(products, found, m, only, old(nextId))
      ensures openLog == old(openLog) + AdditionDocks(products, found, m, only, old(nextId))
      ensures nextId == old(nextId) + |AdditionDocks(products, found, m, only, old(nextId))|
      ensures Valid()
    {
      hide AdditionDocks, FirstMatch, Considered, Matches;
      ghost var docks0 := streamdocks;
      ghost var openLog0 := openLog;
      ghost var firstId := nextId;
      ghost var added: seq<Dock> := [];
      var i := 0;
      while i < |products|
        invariant 0 <= i <= |products|
        invariant Valid()
        invariant streamdocks == docks0 + added && openLog == openLog0 + added
        invariant nextId == firstId + |added|
        invariant added + AdditionDocks(products[i..], found[i..], m, only, nextId) == AdditionDocks(products, found, m, only, firstId)
      {
        AdditionDocksStep(products, found, m, only, i, added, nextId, firstId);
        if Considered(products[i], only) {
          var j := FindMatch(found[i], m);
          if j < |found[i]| {
            var d := Dock(nextId, products[i].cls, found[i][j].path, SharedTransport);
            AppendFresh(streamdocks, d, nextId);
            assert (docks0 + added) + [d] == docks0 + (added + [d]);
            assert (openLog0 + added) + [d] == openLog0 + (added + [d]);
            streamdocks := streamdocks + [d];
            openLog := openLog + [d];
            nextId := nextId + 1;
            added := added + [d];
          }
        }
        i := i + 1;
      }
      assert products[i..] == [];
    }

    /** `_handle_device_addition` (polling mode): every product's first entry with exactly this path is added and opened. */
    method HandleDeviceAddition(path: string, products: seq<Product>, found: seq<seq<Entry>>)
      requires Valid() && |found| == |products|
      modifies this
      ensures streamdocks == old(streamdocks) + AdditionDocks(products, found, Exact(path), None, old(nextId))
      ensures openLog == old(openLog) + AdditionDocks(products, found, Exact(path), None, old(nextId))
      ensures nextId == old(nextId) + |AdditionDocks(products, found, Exact(path), None, old(nextId))|
      ensures Valid()
    {
      AddFirstMatches(products, found, Exact(path), None);
    }

    /**
     * `_handle_device_event` (Linux udev): other actions are ignored; a
     * `remove` drops the first device whose path occurs in the udev path;
     * an `add` whose ids parse opens, for each product with those ids,
     * the first entry whose path ends with the udev path's last segment
     * followed by `:1.0`.
     */
    method HandleDeviceEvent(action: string, devicePath: string, vendor: Option<string>, product: Option<string>,
                             products: seq<Product>, found: seq<seq<Entry>>)
      requires Valid() && |found| == |products|
      modifies this
      ensures action != "add" && action != "remove" ==> streamdocks == old(streamdocks) && openLog == old(openLog)
      ensures action == "remove" ==> streamdocks == RemoveContaining(old(streamdocks), devicePath) && openLog == old(openLog)
      ensures action == "add" && EventIds(vendor, product).None? ==> streamdocks == old(streamdocks) && openLog == old(openLog)
      ensures action == "add" && EventIds(vendor, product).Some? ==>
        streamdocks == old(streamdocks) + AdditionDocks(products, found, Suffix(InterfaceSuffix(devicePath)), EventIds(vendor, product), old(nextId)) &&
        openLog == old(openLog) + AdditionDocks(products, found, Suffix(InterfaceSuffix(devicePath)), EventIds(vendor, product), old(nextId))
      ensures action == "add" && EventIds(vendor, product).Some? ==>
        nextId == old(nextId) + |AdditionDocks(products, found, Suffix(InterfaceSuffix(devicePath)), EventIds(vendor, product), old(nextId))|
      ensures !(action == "add" && EventIds(vendor, product).Some?) ==> nextId == old(nextId)
      ensures Valid()
    {
      if action != "add" && action != "remove" {
        return;
      }
      if action == "remove" {
        RemoveFirstContaining(devicePath);
      }
      if vendor.None? || product.None? || |vendor.value| == 0 || |product.value| == 0 {
        return;
      }
      var v := ParseHex(vendor.value);
      var p := ParseHex(product.value);
      if v.None? || p.None? {
        return;
      }
      if action == "add" {
        AddFirstMatches(products, found, Suffix(InterfaceSuffix(devicePath)), Some((v.value, p.value)));
      }
    }

    /** The `remove` branch of `_handle_device_event`: the first device whose path occurs in the udev path leaves the list. */
    method RemoveFirstContaining(devicePath: string)
      requires Valid()
      modifies this`streamdocks
      ensures streamdocks == RemoveContaining(old(streamdocks), devicePath)
      ensures Valid()
    {
      var i := FindContaining(streamdocks, devicePath);
      if i < |streamdocks| {
        RemoveAtKeepsIds(streamdocks, i, nextId);
        streamdocks := RemoveFirst(streamdocks, streamdocks[i].id);
      }
    }

    /**
     * One pass of the polling loop of `_fallback_polling`. `scan` is what
     * the pass's own enumeration of every product gives, or None when one of
     * those calls raises: the `except` branch then leaves the list alone and
     * keeps `current_devices`. Otherwise the paths found now but not before
     * are handed to `_handle_device_addition`, one at a time in the order
     * `order` (Python's set order, which the model leaves open), the k-th
     * call seeing its own enumeration `rescans[k]`; then the paths found
     * before but not now go to `_handle_device_removal`; the paths found
     * now become the next pass's `current_devices`.
     */
    method PollOnce(current: set<string>, products: seq<Product>, scan: Option<seq<seq<Entry>>>, rescans: seq<seq<seq<Entry>>>)
      returns (next: set<string>, ghost order: seq<string>)
      requires Valid() && Enumerations(products, rescans)
      requires scan.Some? ==> |scan.value| == |products| && |FoundPaths(scan.value) - current| <= |rescans|
      modifies this
      ensures scan.None? ==>
        next == current && order == [] && streamdocks == old(streamdocks) && openLog == old(openLog) && nextId == old(nextId)
      ensures scan.Some? ==> next == FoundPaths(scan.value)
      ensures forall p :: p in order <==> p in next - current
      ensures forall i, j | 0 <= i < j < |order| :: order[i] != order[j]
      ensures |order| <= |rescans|
      ensures streamdocks == WithoutPaths(old(streamdocks) + PolledAdditions(products, rescans, order, old(nextId)), current - next)
      ensures openLog == old(openLog) + PolledAdditions(products, rescans, order, old(nextId))
      ensures nextId == old(nextId) + |PolledAdditions(products, rescans, order, old(nextId))|
      ensures forall d | d in streamdocks :: d.path !in current - next
      ensures forall d | d in old(streamdocks) && d.path !in current - next :: d in streamdocks
      ensures forall d | d in streamdocks && d !in old(streamdocks) :: d.path in next - current && d.transport == SharedTransport
      ensures Valid()
    {
      if scan.None? {
        next := current;
        order := [];
        assert PolledAdditions(products, rescans, order, nextId) == [];
        assert streamdocks + [] == streamdocks;
        assert current - next == {};
        WithoutNoPaths(streamdocks);
        return;
      }
      next := CollectPaths(scan.value);
      ghost var id0 := nextId;
      order := AddPolled(next - current, products, rescans);
      PolledAdditionsPaths(products, rescans, order, id0);
      RemovePolled(current - next);
    }

    /** The first loop of a polling pass: each new path in turn goes to `_handle_device_addition`, which enumerates again. */
    method AddPolled(added: set<string>, products: seq<Product>, rescans: seq<seq<seq<Entry>>>) returns (ghost order: seq<string>)
      requires Valid() && Enumerations(products, rescans) && |added| <= |rescans|
      modifies this
      ensures forall p :: p in order <==> p in added
      ensures forall i, j | 0 <= i < j < |order| :: order[i] != order[j]
      ensures |order| == |added|
      ensures streamdocks == old(streamdocks) + PolledAdditions(products, rescans, order, old(nextId))
      ensures openLog == old(openLog) + PolledAdditions(products, rescans, order, old(nextId))
      ensures nextId == old(nextId) + |PolledAdditions(products, rescans, order, old(nextId))|
      ensures Valid()
    {
      var left := added;
      var k := 0;
      order := [];
      assert PolledAdditions(products, rescans, order, nextId) == [];
      while left != {}
        invariant Valid()
        invariant left <= added
        invariant forall p :: p in order <==> p in added && p !in left
        invariant forall i, j | 0 <= i < j < |order| :: order[i] != order[j]
        invariant k == |order| && k + |left| == |added|
        invariant PolledState(products, rescans, order, old(nextId), old(streamdocks), old(openLog))
        decreases |left|
      {
        var p :| p in left;
        AddPolledPath(p, products, rescans, k, order, old(nextId), old(streamdocks), old(openLog));
        order := order + [p];
        k := k + 1;
        left := left - {p};
      }
    }

    /** The state after the addition handler has run for each of `order`, starting from `docks0`, `log0` and `id0`. */
    ghost predicate PolledState(products: seq<Product>, rescans: seq<seq<seq<Entry>>>, order: seq<string>, id0: nat,
                                docks0: seq<Dock>, log0: seq<Dock>)
      requires Enumerations(products, rescans) && |order| <= |rescans|
      reads this
    {
      var acc := PolledAdditions(products, rescans, order, id0);
      streamdocks == docks0 + acc && openLog == log0 + acc && nextId == id0 + |acc|
    }

    /** One step of the first polling loop: the addition handler for one more path, with that call's own enumeration. */
    method AddPolledPath(p: string, products: seq<Product>, rescans: seq<seq<seq<Entry>>>, k: nat, ghost order: seq<string>,
                         ghost id0: nat, ghost docks0: seq<Dock>, ghost log0: seq<Dock>)
      requires Valid() && Enumerations(products, rescans) && k == |order| < |rescans|
      requires PolledState(products, rescans, order, id0, docks0, log0)
      modifies this
      ensures PolledState(products, rescans, order + [p], id0, docks0, log0)
      ensures Valid()
    {
      hide PolledAdditions, AdditionDocks;
      PolledAdditionsSnoc(products, rescans, order, p, id0);
      ghost var acc := PolledAdditions(products, rescans, order, id0);
      ghost var more := AdditionDocks(products, rescans[|order|], Exact(p), None, nextId);
      HandleDeviceAddition(p, products, rescans[k]);
      assert docks0 + acc + more == docks0 + (acc + more);
      assert log0 + acc + more == log0 + (acc + more);
    }

    /** The second loop of a polling pass: each vanished path goes to `_handle_device_removal`. */
    method RemovePolled(removed: set<string>)
      requires Valid()
      modifies this`streamdocks
      ensures streamdocks == WithoutPaths(old(streamdocks), removed)
      ensures Valid()
    {
      var left := removed;
      ghost var grown := streamdocks;
      ghost var done: set<string> := {};
      WithoutNoPaths(grown);
      while left != {}
        invariant Valid()
        invariant left + done == removed && left !! done
        invariant streamdocks == WithoutPaths(grown, done)
        decreases |left|
      {
        var p :| p in left;
        HandleDeviceRemoval(p);
        WithoutPathsStep(grown, done, p);
        left := left - {p};
        done := done + {p};
      }
    }

    /** The second loop of both removal handlers: `list.remove` for each collected device. */
    method RemoveDevices(toRemove: seq<Dock>)
      requires Valid() && forall e | e in toRemove :: e in streamdocks
      modifies this`streamdocks
      ensures streamdocks == WithoutIds(old(streamdocks), IdsOf(toRemove))
      ensures Valid()
    {
      ghost var docks0 := streamdocks;
      ghost var removed: set<nat> := {};
      WithoutNoIds(docks0);
      hide WithoutIds, RemoveFirst;
      var k := 0;
      while k < |toRemove|
        invariant 0 <= k <= |toRemove|
        invariant removed == IdsOf(toRemove[..k])
        invariant streamdocks == WithoutIds(docks0, removed)
      {
        RemoveFirstOfDistinct(docks0, removed, toRemove[k].id);
        streamdocks := RemoveFirst(streamdocks, toRemove[k].id);
        assert toRemove[..k + 1] == toRemove[..k] + [toRemove[k]];
        removed := removed + {toRemove[k].id};
        k := k + 1;
      }
      assert toRemove[..k] == toRemove;
      RemoveFirstOfDistinct(docks0, removed, 0);
    }

    /** `_handle_device_removal` (polling mode): every device with the path leaves the list; none is closed. */
    method HandleDeviceRemoval(path: string)
      requires Valid()
      modifies this`streamdocks
      ensures streamdocks == WithoutPath(old(streamdocks), path)
      ensures Valid()
    {
      var toRemove := CollectWithPath(streamdocks, path);
      ghost var docks0 := streamdocks;
      RemoveDevices(toRemove);
      forall d | d in docks0 ensures d.id in IdsOf(toRemove) <==> d.path == path {
        CollectedIds(docks0, toRemove, d);
      }
      WithoutIdsOfPath(docks0, path, IdsOf(toRemove));
    }

    /** `_check_removed_devices_windows`: every device whose path is no longer enumerated leaves the list; none is closed. */
    method CheckRemovedDevicesWindows(products: seq<Product>, found: seq<seq<Entry>>)
      requires Valid() && |found| == |products|
      modifies this`streamdocks
      ensures streamdocks == StillPresent(old(streamdocks), FoundPaths(found))
      ensures Valid()
    {
      var paths := CollectPaths(found);
      var toRemove := CollectMissing(streamdocks, paths);
      ghost var docks0 := streamdocks;
      RemoveDevices(toRemove);
      forall d | d in docks0 ensures d.id in IdsOf(toRemove) <==> d.path !in paths {
        CollectedIds(docks0, toRemove, d);
      }
      WithoutIdsOfPresent(docks0, paths, IdsOf(toRemove));
    }

    /** `_check_new_devices_windows`: every enumerated path no device has yet gets a new device, appended and opened. */
    method CheckNewDevicesWindows(products: seq<Product>, found: seq<seq<Entry>>)
      requires Valid() && |found| == |products|
      modifies this
      ensures streamdocks == AddMissing(old(streamdocks), Candidates(products, found), old(nextId))
      ensures |old(streamdocks)| <= |streamdocks| && openLog == old(openLog) + streamdocks[|old(streamdocks)|..]
      ensures nextId == old(nextId) + |streamdocks| - |old(streamdocks)|
      ensures Valid()
    {
      hide AddMissing, Candidates, ProductCandidates;
      ghost var docks0 := streamdocks;
      ghost var firstId := nextId;
      var i := 0;
      while i < |products|
        invariant 0 <= i <= |products|
        invariant Valid()
        invariant |docks0| <= |streamdocks| && streamdocks[..|docks0|] == docks0
        invariant openLog == old(openLog) + streamdocks[|docks0|..]
        invariant nextId + |docks0| == firstId + |streamdocks|
        invariant AddMissing(streamdocks, Candidates(products[i..], found[i..]), nextId) ==
          AddMissing(docks0, Candidates(products, found), firstId)
      {
        CandidatesStep(products, found, i, streamdocks, nextId);
        ghost var before := streamdocks;
        ghost var openBefore := openLog;
        AddMissingForProduct(products[i].cls, found[i]);
        PrefixStep(docks0, before, streamdocks, old(openLog), openBefore, openLog);
        i := i + 1;
      }
      NoCandidates(streamdocks, products[i..], found[i..], nextId);
      assert streamdocks[..|docks0|] + streamdocks[|docks0|..] == streamdocks;
    }

    /** The inner loop of `_check_new_devices_windows`, for one product. */
    method AddMissingForProduct(cls: string, entries: seq<Entry>)
      requires Valid()
      modifies this
      ensures streamdocks == AddMissing(old(streamdocks), ProductCandidates(cls, entries), old(nextId))
      ensures nextId + |old(streamdocks)| == old(nextId) + |streamdocks|
      ensures |old(streamdocks)| <= |streamdocks| && streamdocks[..|old(streamdocks)|] == old(streamdocks)
      ensures openLog == old(openLog) + streamdocks[|old(streamdocks)|..]
      ensures Valid()
    {
      hide AddMissing, ProductCandidates;
      var j := 0;
      while j < |entries|
        invariant 0 <= j <= |entries|
        invariant Valid()
        invariant |old(streamdocks)| <= |streamdocks| && openLog == old(openLog) + streamdocks[|old(streamdocks)|..]
        invariant nextId + |old(streamdocks)| == old(nextId) + |streamdocks|
        invariant AddMissing(streamdocks, ProductCandidates(cls, entries[j..]), nextId) ==
          AddMissing(old(streamdocks), ProductCandidates(cls, entries), old(nextId))
      {
        AddMissingStep(streamdocks, cls, entries, j, nextId);
        var present := HasPathLoop(streamdocks, entries[j].path);
        if !present {
          var d := Dock(nextId, cls, entries[j].path, SharedTransport);
          AppendFresh(streamdocks, d, nextId);
          assert (streamdocks + [d])[|old(streamdocks)|..] == streamdocks[|old(streamdocks)|..] + [d];
          streamdocks := streamdocks + [d];
          openLog := openLog + [d];
          nextId := nextId + 1;
        }
        j := j + 1;
      }
      AddMissingStep(streamdocks, cls, entries, j, nextId);
      AddMissingFacts(old(streamdocks), ProductCandidates(cls, entries), old(nextId));
    }
  }

  /** `any(device.getPath() == device_path for device in self.streamdocks)`. */
  method HasPathLoop(docks: seq<Dock>, path: string) returns (b: bool)
    ensures b <==> HasPath(docks, path)
  {
    var k := 0;
    while k < |docks|
      invariant 0 <= k <= |docks|
      invariant forall m | 0 <= m < k :: docks[m].path != path
    {
      if docks[k].path == path {
        return true;
      }
      k := k + 1;
    }
    return false;
  }
}
