/** The table of heard callsigns: linear probing over 256 slots, keyed by hash. */
module CallsignTables {

  const CALLSIGN_HASH_TABLE_SIZE := 256
  const MAX_TEXT := 11

  datatype Entry = Free | Used(n22: nat, callsign: string)
  datatype HashType = Bits22 | Bits12 | Bits10
  datatype Option = None | Some(callsign: string)

  /** What fits into an entry's text. */
  function Text(callsign: string): string {
    if |callsign| <= MAX_TEXT then callsign else callsign[..MAX_TEXT]
  }

  /** A stored hash reduced to the width asked for. */
  function Reduce(ty: HashType, n22: nat): nat {
    match ty
    case Bits22 => n22 % 0x40_0000
    case Bits12 => (n22 / 0x400) % 0x1000
    case Bits10 => (n22 / 0x1000) % 0x400
  }

  /** The i-th place probed for a hash. */
  function Place(hash: nat, i: nat): (idx: nat)
    ensures idx < CALLSIGN_HASH_TABLE_SIZE
  {
    (hash % CALLSIGN_HASH_TABLE_SIZE + i) % CALLSIGN_HASH_TABLE_SIZE
  }

  /** How many places are probed before idx. */
  function Distance(hash: nat, idx: nat): (d: nat)
    requires idx < CALLSIGN_HASH_TABLE_SIZE
    ensures d < CALLSIGN_HASH_TABLE_SIZE && Place(hash, d) == idx
    ensures forall e: nat :: e < CALLSIGN_HASH_TABLE_SIZE && Place(hash, e) == idx ==> e == d
  {
    var home := hash % CALLSIGN_HASH_TABLE_SIZE;
    if home <= idx then idx - home else idx + CALLSIGN_HASH_TABLE_SIZE - home
  }

  /** The table's meaning: what a map with limited room becomes when a call is added. */
  function Added(m: map<nat, string>, callsign: string, hash: nat): map<nat, string> {
    if callsign == "" then m
    else if hash in m || |m| < CALLSIGN_HASH_TABLE_SIZE then m[hash := Text(callsign)]
    else m
  }

  /** Every place probed before a stored key's own is taken. */
  predicate Reachable(s: seq<Entry>, i: nat)
    requires |s| == CALLSIGN_HASH_TABLE_SIZE && i < |s| && s[i].Used?
  {
    forall e: nat :: e < Distance(s[i].n22, i) ==> s[Place(s[i].n22, e)].Used?
  }

  ghost predicate Holds(s: seq<Entry>, m: map<nat, string>) {
    && |s| == CALLSIGN_HASH_TABLE_SIZE
    && (forall i :: 0 <= i < |s| && s[i].Used? ==> s[i].n22 in m && m[s[i].n22] == s[i].callsign)
    && (forall k :: k in m ==> exists i :: 0 <= i < |s| && s[i].Used? && s[i].n22 == k)
    && (forall i, j :: 0 <= i < j < |s| && s[i].Used? && s[j].Used? ==> s[i].n22 != s[j].n22)
    && (forall i :: 0 <= i < |s| && s[i].Used? ==> Reachable(s, i))
  }

  // ----- counting -----

  function Keys(s: seq<Entry>): set<nat> {
    if s == [] then {} else Keys(s[..|s| - 1]) + if s[|s| - 1].Used? then {s[|s| - 1].n22} else {}
  }

  function Taken(s: seq<Entry>): nat {
    if s == [] then 0 else Taken(s[..|s| - 1]) + if s[|s| - 1].Used? then 1 else 0
  }

  lemma {:induction false} KeysAre(s: seq<Entry>)
    ensures forall k :: k in Keys(s) <==> exists i :: 0 <= i < |s| && s[i].Used? && s[i].n22 == k
  {
    if s != [] {
      var t := s[..|s| - 1];
      KeysAre(t);
      forall k | exists i :: 0 <= i < |s| && s[i].Used? && s[i].n22 == k
        ensures k in Keys(s)
      {
        var i :| 0 <= i < |s| && s[i].Used? && s[i].n22 == k;
        if i < |t| {
          assert t[i] == s[i];
        }
      }
      forall k | k in Keys(s)
        ensures exists i :: 0 <= i < |s| && s[i].Used? && s[i].n22 == k
      {
        if k in Keys(t) {
          var i :| 0 <= i < |t| && t[i].Used? && t[i].n22 == k;
          assert s[i] == t[i];
        }
      }
    }
  }

  lemma {:induction false} TakenKeys(s: seq<Entry>)
    requires forall i, j :: 0 <= i < j < |s| && s[i].Used? && s[j].Used? ==> s[i].n22 != s[j].n22
    ensures |Keys(s)| == Taken(s)
  {
    if s != [] {
      var t := s[..|s| - 1];
      TakenKeys(t);
      KeysAre(t);
    }
  }

  lemma {:induction false} TakenAll(s: seq<Entry>)
    ensures Taken(s) <= |s|
    ensures Taken(s) == |s| <==> forall i :: 0 <= i < |s| ==> s[i].Used?
  {
    if s != [] {
      TakenAll(s[..|s| - 1]);
    }
  }

  /** The map is full exactly when every slot is taken. */
  lemma FullIsFull(s: seq<Entry>, m: map<nat, string>)
    requires Holds(s, m)
    ensures |m| <= CALLSIGN_HASH_TABLE_SIZE
    ensures |m| == CALLSIGN_HASH_TABLE_SIZE <==> forall i :: 0 <= i < |s| ==> s[i].Used?
  {
    hide Reachable;
    KeysAre(s);
    assert Keys(s) == m.Keys;
    TakenKeys(s);
    TakenAll(s);
  }

  // ----- probing -----

  /** The first count places probed for a hash hold other keys. */
  predicate Probed(s: seq<Entry>, hash: nat, count: nat)
    requires |s| == CALLSIGN_HASH_TABLE_SIZE
  {
    forall e: nat {:trigger Place(hash, e)} :: e < count ==> s[Place(hash, e)].Used? && s[Place(hash, e)].n22 != hash
  }

  /** A probe that meets a free slot proves the key absent. */
  lemma FreeMeansAbsent(s: seq<Entry>, m: map<nat, string>, hash: nat, count: nat)
    requires Holds(s, m) && Probed(s, hash, count) && count < CALLSIGN_HASH_TABLE_SIZE
    requires s[Place(hash, count)].Free?
    ensures hash !in m
  {
    forall i | 0 <= i < |s| && s[i].Used?
      ensures s[i].n22 != hash
    {
      assert Reachable(s, i);
    }
  }

  /** Writing a new key into the first free place keeps the table. */
  lemma Inserts(s: seq<Entry>, m: map<nat, string>, hash: nat, count: nat, text: string)
    requires Holds(s, m) && Probed(s, hash, count) && count < CALLSIGN_HASH_TABLE_SIZE
    requires s[Place(hash, count)].Free?
    ensures Holds(s[Place(hash, count) := Used(hash, text)], m[hash := text])
  {
    FreeMeansAbsent(s, m, hash, count);
    var idx := Place(hash, count);
    var t, n := s[idx := Used(hash, text)], m[hash := text];
    hide Place;
    forall k | k in n
      ensures exists i :: 0 <= i < |t| && t[i].Used? && t[i].n22 == k
    {
      if k == hash {
        assert t[idx].n22 == k;
      } else {
        var i :| 0 <= i < |s| && s[i].Used? && s[i].n22 == k;
        assert t[i] == s[i];
      }
    }
    forall i | 0 <= i < |t| && t[i].Used?
      ensures Reachable(t, i)
    {
      if i == idx {
        assert Distance(hash, idx) == count;
      } else {
        assert Reachable(s, i);
      }
    }
  }

  /** Writing over a stored key's text keeps the table. */
  lemma Refreshes(s: seq<Entry>, m: map<nat, string>, idx: nat, text: string)
    requires Holds(s, m) && idx < |s| && s[idx].Used?
    ensures Holds(s[idx := Used(s[idx].n22, text)], m[s[idx].n22 := text]) && s[idx].n22 in m
  {
    hide Place;
    var hash := s[idx].n22;
    var t, n := s[idx := Used(hash, text)], m[hash := text];
    forall k | k in n
      ensures exists i :: 0 <= i < |t| && t[i].Used? && t[i].n22 == k
    {
      var i :| 0 <= i < |s| && s[i].Used? && s[i].n22 == k;
      assert t[i].n22 == k;
    }
    forall i | 0 <= i < |t| && t[i].Used?
      ensures Reachable(t, i)
    {
      assert Reachable(s, i);
    }
  }

  /** After all places the table is full and the key absent. */
  lemma AllProbed(s: seq<Entry>, m: map<nat, string>, hash: nat)
    requires Holds(s, m) && Probed(s, hash, CALLSIGN_HASH_TABLE_SIZE)
    ensures hash !in m && |m| == CALLSIGN_HASH_TABLE_SIZE
  {
    hide Place, Reachable;
    forall i | 0 <= i < |s|
      ensures s[i].Used? && s[i].n22 != hash
    {
      assert Place(hash, Distance(hash, i)) == i;
    }
    FullIsFull(s, m);
  }

  /** The answer a lookup may give: the text of some stored key that reduces to the hash, or none if there is none. */
  ghost predicate Answers(m: map<nat, string>, ty: HashType, hash: nat, found: Option) {
    match found
    case None => forall k :: k in m ==> Reduce(ty, k) != hash
    case Some(callsign) => exists k :: k in m && Reduce(ty, k) == hash && m[k] == callsign
  }

  class CallsignTable {
    const slots: array<Entry>
    ghost var contents: map<nat, string>

    ghost predicate Valid()
      reads this, slots
    {
      Holds(slots[..], contents)
    }

    constructor ()
      ensures Valid() && contents == map[] && fresh(slots)
    {
      slots := new Entry[CALLSIGN_HASH_TABLE_SIZE](i => Free);
      contents := map[];
    }

    /** Forgets all calls. */
    method Init()
      requires Valid()
      modifies this, slots
      ensures Valid() && contents == map[]
    {
      var i := 0;
      while i < CALLSIGN_HASH_TABLE_SIZE
        invariant 0 <= i <= CALLSIGN_HASH_TABLE_SIZE == slots.Length
        invariant forall k :: 0 <= k < i ==> slots[k] == Free
      {
        slots[i] := Free;
        i := i + 1;
      }
      contents := map[];
    }

    method Add(callsign: string, hash: nat)
      requires Valid()
      modifies this, slots
      ensures Valid() && contents == Added(old(contents), callsign, hash)
    {
      hide Holds, Probed;
      assert slots.Length == CALLSIGN_HASH_TABLE_SIZE by { HoldsLength(slots[..], contents); }
      if callsign == "" {
        return;
      }
      ghost var s, m := slots[..], contents;
      var start := hash % CALLSIGN_HASH_TABLE_SIZE;
      var i := 0;
      ProbeBegins(s, hash);
      while i < CALLSIGN_HASH_TABLE_SIZE
        invariant 0 <= i <= CALLSIGN_HASH_TABLE_SIZE && slots[..] == s && contents == m && Valid()
        invariant Probed(s, hash, i)
      {
        var idx := (start + i) % CALLSIGN_HASH_TABLE_SIZE;
        assert idx == Place(hash, i);
        if slots[idx].Free? {
          slots[idx] := Used(hash, Text(callsign));
          contents := contents[hash := Text(callsign)];
          Inserts(s, m, hash, i, Text(callsign));
          assert slots[..] == s[idx := Used(hash, Text(callsign))];
          FullHasNoFree(s, m, idx);
          return;
        }
        if slots[idx].n22 == hash {
          slots[idx] := Used(hash, Text(callsign));
          contents := contents[hash := Text(callsign)];
          Refreshes(s, m, idx, Text(callsign));
          assert slots[..] == s[idx := Used(hash, Text(callsign))];
          return;
        }
        ProbeOn(s, hash, i);
        i := i + 1;
      }
      AllProbed(s, m, hash);
    }

    /** Looks a hash of any width up. */
    method Lookup(ty: HashType, hash: nat) returns (found: Option)
      requires Valid()
      ensures Answers(contents, ty, hash, found)
    {
      hide Reduce, Reachable;
      var i := 0;
      while i < CALLSIGN_HASH_TABLE_SIZE
        invariant 0 <= i <= CALLSIGN_HASH_TABLE_SIZE == slots.Length
        invariant forall j :: 0 <= j < i && slots[j].Used? ==> Reduce(ty, slots[j].n22) != hash
      {
        if slots[i].Used? {
          var stored := Reduce(ty, slots[i].n22);
          if stored == hash {
            assert slots[..][i].n22 in contents;
            return Some(slots[i].callsign);
          }
        }
        i := i + 1;
      }
      forall k | k in contents
        ensures Reduce(ty, k) != hash
      {
        var j :| 0 <= j < |slots[..]| && slots[..][j].Used? && slots[..][j].n22 == k;
        assert slots[j].n22 == k;
      }
      return None;
    }
  }

  lemma HoldsLength(s: seq<Entry>, m: map<nat, string>)
    requires Holds(s, m)
    ensures |s| == CALLSIGN_HASH_TABLE_SIZE
  {
  }

  lemma ProbeBegins(s: seq<Entry>, hash: nat)
    requires |s| == CALLSIGN_HASH_TABLE_SIZE
    ensures Probed(s, hash, 0)
  {
  }

  lemma ProbeOn(s: seq<Entry>, hash: nat, count: nat)
    requires |s| == CALLSIGN_HASH_TABLE_SIZE && Probed(s, hash, count)
    requires s[Place(hash, count)].Used? && s[Place(hash, count)].n22 != hash
    ensures Probed(s, hash, count + 1)
  {
  }

  lemma FullHasNoFree(s: seq<Entry>, m: map<nat, string>, idx: nat)
    requires Holds(s, m) && idx < |s| && s[idx].Free?
    ensures |m| < CALLSIGN_HASH_TABLE_SIZE
  {
    FullIsFull(s, m);
  }

  // ----- what a user of the table can rely on -----

  /** An added call is what every width of lookup answers, as long as no other stored key reduces to the same hash. */
  lemma AddedIsAnswered(m: map<nat, string>, callsign: string, n22: nat, ty: HashType, found: Option)
    requires callsign != "" && (n22 in m || |m| < CALLSIGN_HASH_TABLE_SIZE)
    requires forall k :: k in m && Reduce(ty, k) == Reduce(ty, n22) ==> k == n22
    requires Answers(Added(m, callsign, n22), ty, Reduce(ty, n22), found)
    ensures found == Some(Text(callsign))
  {
    hide Reduce;
    assert n22 in Added(m, callsign, n22);
  }

  /** 22-bit keys never share a full hash, so a lookup by 22 bits answers exactly what the map holds. */
  lemma FullWidthIsExact(m: map<nat, string>, hash: nat, found: Option)
    requires forall k :: k in m ==> k < 0x40_0000
    requires Answers(m, Bits22, hash, found)
    ensures found == if hash in m then Some(m[hash]) else None
  {
    if hash in m {
      assert Reduce(Bits22, hash) == hash;
    }
  }
}
