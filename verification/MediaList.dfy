/** The codec table (src/sdp/media.rs): a bidirectional map name <-> id plus a frequency map. */
module Media {
  import opened Base
  import opened Wire

  type Name = string

  datatype Rtpmap = Rtpmap(id: u8, name: Name, frequency: u32)

  /** SDP attributes; only rtpmap lines reach the table. */
  datatype SdpAttribute = RtpmapLine(rtpmap: Rtpmap) | OtherLine

  /** A published, immutable copy of the table. `ids` and `names` are the two halves of the BiMap. */
  datatype MediaTable = MediaTable(ids: map<Name, u8>, names: map<u8, Name>, frequencies: map<u8, u32>) {

    function GetName(id: u8): Option<Name> { if id in names then Some(names[id]) else None }
    function GetId(name: Name): Option<u8> { if name in ids then Some(ids[name]) else None }
    function GetFrequency(id: u8): Option<u32> { if id in frequencies then Some(frequencies[id]) else None }
    function Frequencies(): set<u32> { frequencies.Values }

    /** The two halves describe the same set of pairs. */
    ghost predicate Bijective() {
      && (forall n <- ids :: ids[n] in names && names[ids[n]] == n)
      && (forall i <- names :: names[i] in ids && ids[names[i]] == i)
    }

    /** BiMap::insert drops every pair that shares the name or the id, then adds the new one. */
    function Insert(m: Rtpmap): MediaTable {
      var freedIds := {m.id} + (if m.name in ids then {ids[m.name]} else {});
      var freedNames := {m.name} + (if m.id in names then {names[m.id]} else {});
      MediaTable((ids - freedNames)[m.name := m.id], (names - freedIds)[m.id := m.name],
                 frequencies[m.id := m.frequency])
    }
  }

  const EMPTY := MediaTable(map[], map[], map[])

  function Rtpmaps(attrs: seq<SdpAttribute>): seq<Rtpmap> {
    if attrs == [] then []
    else
      var last := attrs[|attrs| - 1];
      Rtpmaps(attrs[..|attrs| - 1]) + (if last.RtpmapLine? then [last.rtpmap] else [])
  }

  lemma RtpmapsSnoc(attrs: seq<SdpAttribute>, i: nat)
    requires i < |attrs|
    ensures Rtpmaps(attrs[..i + 1])
         == if attrs[i].RtpmapLine? then Rtpmaps(attrs[..i]) + [attrs[i].rtpmap] else Rtpmaps(attrs[..i])
  {
    assert attrs[..i + 1][..i] == attrs[..i];
  }

  /** Exactly the rtpmap lines are kept, in order. */
  lemma {:induction false} RtpmapsOfConcat(front: seq<SdpAttribute>, back: seq<SdpAttribute>)
    ensures Rtpmaps(front + back) == Rtpmaps(front) + Rtpmaps(back)
  {
    if back == [] {
      assert front + back == front;
    } else {
      var n := |back| - 1;
      RtpmapsOfConcat(front, back[..n]);
      assert (front + back)[..|front| + n] == front + back[..n];
    }
  }

  lemma RtpmapsOfOne(m: Rtpmap)
    ensures Rtpmaps([RtpmapLine(m)]) == [m] && Rtpmaps([OtherLine]) == [] && Rtpmaps([]) == []
  {
    assert [RtpmapLine(m)][..0] == [] && [OtherLine][..0] == [];
  }

  /** The table after inserting every rtpmap in order. */
  function Fold(ms: seq<Rtpmap>): MediaTable {
    if ms == [] then EMPTY else Fold(ms[..|ms| - 1]).Insert(ms[|ms| - 1])
  }

  class MediaList {
    var ids: map<Name, u8>
    var names: map<u8, Name>
    var frequencies: map<u8, u32>

    function Table(): MediaTable
      reads this
    {
      MediaTable(ids, names, frequencies)
    }

    constructor ()
      ensures Table() == EMPTY
    {
      ids, names, frequencies := map[], map[], map[];
    }

    method Insert(m: Rtpmap)
      modifies this
      ensures Table() == old(Table()).Insert(m)
    {
      var freedIds := {m.id};
      if m.name in ids { freedIds := freedIds + {ids[m.name]}; }
      var freedNames := {m.name};
      if m.id in names { freedNames := freedNames + {names[m.id]}; }
      ids := (ids - freedNames)[m.name := m.id];
      names := (names - freedIds)[m.id := m.name];
      frequencies := frequencies[m.id := m.frequency];
    }

    /** FromIterator<SdpAttribute>: keep the rtpmaps, insert them in order. */
    constructor FromAttributes(attrs: seq<SdpAttribute>)
      ensures Table() == Fold(Rtpmaps(attrs))
    {
      ids, names, frequencies := map[], map[], map[];
      new;
      for i := 0 to |attrs|
        invariant Table() == Fold(Rtpmaps(attrs[..i]))
      {
        ghost var ms := Rtpmaps(attrs[..i]);
        RtpmapsSnoc(attrs, i);
        if attrs[i].RtpmapLine? {
          assert (ms + [attrs[i].rtpmap])[..|ms|] == ms;
          Insert(attrs[i].rtpmap);
        }
      }
      assert attrs[..|attrs|] == attrs;
    }
  }

  // ---------------------------------------------------------------------
  // Characterisation
  // ---------------------------------------------------------------------

  predicate Mentions(m: Rtpmap, id: u8, name: Name) {
    m.id == id || m.name == name
  }

  /** Rtpmap k is the last one to mention this id or this name, and it pairs them. */
  ghost predicate LastPairing(ms: seq<Rtpmap>, k: nat, id: u8, name: Name) {
    && k < |ms| && ms[k].id == id && ms[k].name == name
    && forall j | k < j < |ms| :: !Mentions(ms[j], id, name)
  }

  /** Id and name lookups are mutual inverses and every named id has a frequency. */
  lemma {:induction false} FoldIsBijective(ms: seq<Rtpmap>)
    ensures Fold(ms).Bijective() && Fold(ms).names.Keys <= Fold(ms).frequencies.Keys
  {
    if ms != [] {
      FoldIsBijective(ms[..|ms| - 1]);
    }
  }

  /** An id maps to a name exactly when the last rtpmap mentioning either one is that pair, and
      the id's frequency then comes from that same rtpmap. */
  lemma {:induction false} FoldCharacterisation(ms: seq<Rtpmap>, id: u8, name: Name)
    ensures Fold(ms).GetName(id) == Some(name) <==> exists k: nat :: LastPairing(ms, k, id, name)
    ensures Fold(ms).GetName(id) == Some(name) <==> Fold(ms).GetId(name) == Some(id)
    ensures forall k: nat | LastPairing(ms, k, id, name) ::
              Fold(ms).GetFrequency(id) == Some(ms[k].frequency)
  {
    FoldIsBijective(ms);
    if ms != [] {
      var front, n := ms[..|ms| - 1], |ms| - 1;
      FoldCharacterisation(front, id, name);
      FoldIsBijective(front);
      InsertLookup(Fold(front), ms[n], id, name);
      if ms[n].id == id && ms[n].name == name {
        assert LastPairing(ms, n, id, name);
      } else {
        forall k: nat
          ensures LastPairing(ms, k, id, name) <==> LastPairing(front, k, id, name) && !Mentions(ms[n], id, name)
        {
          LastPairingSnoc(ms, k, id, name);
        }
      }
    }
  }

  /** Rtpmap k is the last one to mention this id. */
  ghost predicate LastOfId(ms: seq<Rtpmap>, k: nat, id: u8) {
    k < |ms| && ms[k].id == id && forall j | k < j < |ms| :: ms[j].id != id
  }

  /** The frequency of an id is that of the last rtpmap mentioning it, whatever became of its name;
      and it has none exactly if no rtpmap mentions it. */
  lemma {:induction false} FrequencyIsLast(ms: seq<Rtpmap>, id: u8)
    ensures forall k: nat | LastOfId(ms, k, id) :: Fold(ms).GetFrequency(id) == Some(ms[k].frequency)
    ensures Fold(ms).GetFrequency(id) == None <==> forall m <- ms :: m.id != id
  {
    if ms != [] {
      var front, n := ms[..|ms| - 1], |ms| - 1;
      FrequencyIsLast(front, id);
      assert ms == front + [ms[n]];
      if ms[n].id != id {
        forall k: nat | LastOfId(ms, k, id)
          ensures LastOfId(front, k, id) && front[k] == ms[k]
        {
          assert forall j | k < j < |front| :: front[j] == ms[j];
        }
      }
    }
  }

  /** The frequencies a list announces are those of the last rtpmap of each id it mentions. */
  lemma FrequenciesAreLast(ms: seq<Rtpmap>, f: u32)
    ensures f in Fold(ms).Frequencies() <==>
            exists k: nat :: k < |ms| && LastOfId(ms, k, ms[k].id) && ms[k].frequency == f
  {
    var t := Fold(ms);
    if f in t.Frequencies() {
      var id :| id in t.frequencies && t.frequencies[id] == f;
      FrequencyIsLast(ms, id);
      var k := LastIndex(ms, id);
    }
    if k: nat :| k < |ms| && LastOfId(ms, k, ms[k].id) && ms[k].frequency == f {
      FrequencyIsLast(ms, ms[k].id);
      assert t.frequencies[ms[k].id] == f;
    }
  }

  lemma {:induction false} LastIndex(ms: seq<Rtpmap>, id: u8) returns (k: nat)
    requires exists m <- ms :: m.id == id
    ensures LastOfId(ms, k, id)
  {
    var n := |ms| - 1;
    if ms[n].id == id {
      k := n;
    } else {
      assert ms == ms[..n] + [ms[n]];
      k := LastIndex(ms[..n], id);
    }
  }

  /** One overwriting insert: it makes its own pair, keeps unrelated pairs, drops the rest. */
  lemma InsertLookup(t: MediaTable, m: Rtpmap, id: u8, name: Name)
    requires t.Bijective()
    ensures t.Insert(m).GetName(id) == Some(name) <==>
            (m.id == id && m.name == name) || (!Mentions(m, id, name) && t.GetName(id) == Some(name))
    ensures m.id != id ==> t.Insert(m).GetFrequency(id) == t.GetFrequency(id)
  {
  }

  lemma LastPairingSnoc(ms: seq<Rtpmap>, k: nat, id: u8, name: Name)
    requires ms != [] && !(ms[|ms| - 1].id == id && ms[|ms| - 1].name == name)
    ensures LastPairing(ms, k, id, name) <==>
            LastPairing(ms[..|ms| - 1], k, id, name) && !Mentions(ms[|ms| - 1], id, name)
  {
    var n := |ms| - 1;
    if LastPairing(ms[..n], k, id, name) && !Mentions(ms[n], id, name) {
      assert forall j | k < j < |ms| :: j == n || ms[j] == ms[..n][j];
    }
    if LastPairing(ms, k, id, name) {
      assert forall j | k < j < n :: ms[..n][j] == ms[j];
    }
  }
}
