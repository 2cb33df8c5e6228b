/** Which control may command which device: one enabled control per actuator, found across stored
    documents by two different scans (toinflux/controls.py). */
module Ownership {
  import opened Numbers

  // ---------- identities ----------

  /** One `devices` entry as it may be stored; a missing source or device names nothing. */
  datatype Named = Named(source: Option<string>, instance: Option<string>, device: Option<string>) | NotAMapping

  datatype Identity = Identity(source: string, instance: Option<string>, device: string)

  function LowerChar(c: char): char {
    if 'A' <= c <= 'Z' then c - 'A' + 'a' else c
  }

  function Lower(s: string): string {
    if s == "" then "" else [LowerChar(s[0])] + Lower(s[1..])
  }

  function ActuatorIdentity(n: Named): Option<Identity> {
    if n.NotAMapping? || n.source.None? || n.device.None? then None
    else Some(Identity(Lower(n.source.value), n.instance, n.device.value))
  }

  /** An absent instance may be any instance of the same source and device. */
  predicate MayBeOne(a: Identity, b: Identity) {
    && a.source == b.source && a.device == b.device
    && (a.instance.None? || b.instance.None? || a.instance == b.instance)
  }

  lemma ClashIsSymmetricButNotTransitive()
    ensures forall a, b :: MayBeOne(a, b) == MayBeOne(b, a)
    ensures forall a :: MayBeOne(a, a)
    ensures exists a, b, c :: MayBeOne(a, b) && MayBeOne(b, c) && !MayBeOne(a, c)
  {
    var a, b, c := Bridge(Some("one")), Bridge(None), Bridge(Some("two"));
    assert MayBeOne(a, b) && MayBeOne(b, c) && !MayBeOne(a, c);
  }

  function Bridge(instance: Option<string>): Identity {
    Identity("hue", instance, "far")
  }

  // ---------- documents ----------

  /** `enabled` as a document may hold it. `rest` stands for everything else in the document. */
  datatype Flag = Omitted | Is(on: bool) | NotABool

  datatype Document = Document(enabled: Flag, devices: seq<Named>, rest: string)

  predicate ControlIsEnabled(d: Document) {
    d.enabled.Omitted? || d.enabled == Is(true)
  }

  /** What each entry that names an actuator names, entry by entry. */
  function Identities(devices: seq<Named>): seq<Identity> {
    if devices == [] then []
    else
      var id := ActuatorIdentity(devices[0]);
      (if id.Some? then [id.value] else []) + Identities(devices[1..])
  }

  /** Entry by entry alike, but for the case of their sources. */
  ghost predicate AlikeButForCase(a: seq<Named>, b: seq<Named>) {
    |a| == |b| && forall i :: 0 <= i < |a| ==> SameButForCase(a[i], b[i])
  }

  predicate SameButForCase(a: Named, b: Named) {
    if a.NotAMapping? || b.NotAMapping? then a == b
    else
      && a.instance == b.instance && a.device == b.device
      && (a.source.Some? <==> b.source.Some?)
      && (a.source.Some? ==> SameLetters(a.source.value, b.source.value))
  }

  predicate SameLetters(s: string, t: string) {
    |s| == |t| && forall i :: 0 <= i < |s| ==> s[i] == t[i] || Capital(s[i], t[i]) || Capital(t[i], s[i])
  }

  predicate Capital(c: char, small: char) {
    'A' <= c <= 'Z' && small as int == c as int - 'A' as int + 'a' as int
  }

  lemma {:induction false} LoweringForgetsCase(s: string, t: string)
    requires SameLetters(s, t)
    ensures Lower(s) == Lower(t)
  {
    if s != "" {
      assert s[0] == t[0] || Capital(s[0], t[0]) || Capital(t[0], s[0]);
      LoweringForgetsCase(s[1..], t[1..]);
    }
  }

  lemma {:induction false} CaseNamesNothingNew(a: seq<Named>, b: seq<Named>)
    requires AlikeButForCase(a, b)
    ensures Identities(a) == Identities(b)
  {
    if a != [] {
      assert SameButForCase(a[0], b[0]);
      if a[0].Named? && a[0].source.Some? {
        LoweringForgetsCase(a[0].source.value, b[0].source.value);
      }
      assert forall i :: 0 <= i < |a[1..]| ==> a[1..][i] == a[i + 1] && b[1..][i] == b[i + 1];
      CaseNamesNothingNew(a[1..], b[1..]);
    }
  }

  function Once(ids: seq<Identity>): seq<Identity> {
    if ids == [] then [] else if ids[0] in ids[1..] then Once(ids[1..]) else [ids[0]] + Once(ids[1..])
  }

  /** `actuators_owned`: a set, so an identity two entries share is there once. */
  function Owned(devices: seq<Named>): seq<Identity> {
    Once(Identities(devices))
  }

  ghost predicate Clash(ours: seq<Identity>, theirs: seq<Identity>) {
    exists i, j :: 0 <= i < |ours| && 0 <= j < |theirs| && MayBeOne(ours[i], theirs[j])
  }

  /** No two of these may be one actuator. */
  ghost predicate Apart(ids: seq<Identity>) {
    forall i, j :: 0 <= i < j < |ids| ==> !MayBeOne(ids[i], ids[j])
  }

  /** `_check_one_key_per_actuator`: the pairs of entries that name one actuator, if any. */
  method CheckOneKeyPerActuator(devices: seq<Named>) returns (pairs: seq<(nat, nat)>)
    ensures pairs == [] <==> Apart(Identities(devices))
    ensures AreClashes(Identities(devices), pairs)
  {
    var ids := Identities(devices);
    pairs := [];
    for i := 0 to |ids|
      invariant pairs == [] <==> forall a :: 0 <= a < i ==> ApartFrom(ids, a, |ids|)
      invariant AreClashes(ids, pairs)
    {
      ghost var before := pairs == [];
      for j := i + 1 to |ids|
        invariant pairs == [] <==> before && ApartFrom(ids, i, j)
        invariant AreClashes(ids, pairs)
      {
        if MayBeOne(ids[i], ids[j]) {
          pairs := pairs + [(i, j)];
        }
      }
    }
    ApartOneByOne(ids);
  }

  /** These are pairs of places, in order, whose identities may be one. */
  ghost predicate AreClashes(ids: seq<Identity>, pairs: seq<(nat, nat)>) {
    forall k :: 0 <= k < |pairs| ==>
      pairs[k].0 < pairs[k].1 < |ids| && MayBeOne(ids[pairs[k].0], ids[pairs[k].1])
  }

  /** Nothing after this one and before that place may be one with it. */
  ghost predicate ApartFrom(ids: seq<Identity>, a: nat, end: nat)
    requires a < end <= |ids|
  {
    forall b :: a < b < end ==> !MayBeOne(ids[a], ids[b])
  }

  lemma ApartOneByOne(ids: seq<Identity>)
    ensures Apart(ids) <==> forall a :: 0 <= a < |ids| ==> ApartFrom(ids, a, |ids|)
  {
    if forall a :: 0 <= a < |ids| ==> ApartFrom(ids, a, |ids|) {
      forall i, j | 0 <= i < j < |ids|
        ensures !MayBeOne(ids[i], ids[j])
      {
        assert ApartFrom(ids, i, |ids|);
      }
    }
  }

  lemma {:induction false} OnceKeepsWhatIsApart(ids: seq<Identity>)
    ensures forall id :: id in Once(ids) <==> id in ids
    ensures Apart(ids) ==> Once(ids) == ids
  {
    if ids != [] {
      OnceKeepsWhatIsApart(ids[1..]);
      if Apart(ids) {
        RestIsApart(ids);
      }
    }
  }

  lemma RestIsApart(ids: seq<Identity>)
    requires ids != [] && Apart(ids)
    ensures Apart(ids[1..]) && ids[0] !in ids[1..]
  {
    assert forall i, j :: 0 <= i < j < |ids[1..]| ==> ids[1..][i] == ids[i + 1] && ids[1..][j] == ids[j + 1];
    assert forall i :: 0 < i < |ids| ==> !MayBeOne(ids[0], ids[i]);
  }

  /** A document validation accepts names each actuator once, so what it owns is what its entries
      name, in turn, and no two of them can be one. */
  lemma ValidatedDocumentsAreApart(d: Document)
    requires Apart(Identities(d.devices))
    ensures Owned(d.devices) == Identities(d.devices) && Apart(Owned(d.devices))
  {
    OnceKeepsWhatIsApart(Identities(d.devices));
  }

  // ---------- who owns it already ----------

  type Documents = map<string, Document>

  /** An enabled control, other than `excluding`, that commands one of these actuators. */
  ghost predicate OwnedElsewhere(actuators: seq<Identity>, documents: Documents, excluding: string) {
    exists name :: name in documents && Commands(actuators, documents, excluding, name)
  }

  ghost predicate Commands(actuators: seq<Identity>, documents: Documents, excluding: string, name: string)
    requires name in documents
  {
    name != excluding && ControlIsEnabled(documents[name]) && Clash(actuators, Owned(documents[name].devices))
  }

  /** A document that writes its sources in another case slips past no check: two entries of it clash,
      and another control owns one of its actuators, exactly where they do for the document as it was;
      and put beside that document, it clashes with it wherever it owns anything. */
  lemma CaseOfASourceHidesNothing(a: Document, b: Document, documents: Documents, excluding: string)
    requires AlikeButForCase(a.devices, b.devices)
    ensures Apart(Identities(a.devices)) <==> Apart(Identities(b.devices))
    ensures OwnedElsewhere(Owned(a.devices), documents, excluding) <==>
              OwnedElsewhere(Owned(b.devices), documents, excluding)
    ensures Owned(a.devices) != [] ==> Clash(Owned(a.devices), Owned(b.devices))
  {
    CaseNamesNothingNew(a.devices, b.devices);
    if Owned(a.devices) != [] {
      assert MayBeOne(Owned(a.devices)[0], Owned(b.devices)[0]);
    }
  }

  // ---------- which entries name one device ----------

  /** Two entries that name one device: sources alike but for case, the same device letter for letter,
      and no two instances that differ. An entry without a source or a device names nothing. */
  predicate OneDevice(a: Named, b: Named) {
    && a.Named? && b.Named? && a.source.Some? && b.source.Some? && a.device.Some? && a.device == b.device
    && SameLetters(a.source.value, b.source.value)
    && (a.instance.None? || b.instance.None? || a.instance == b.instance)
  }

  lemma {:induction false} LoweringKeepsLetters(s: string, t: string)
    requires Lower(s) == Lower(t)
    ensures SameLetters(s, t)
  {
    if s != "" && t != "" {
      assert Lower(s)[0] == Lower(t)[0] && Lower(s)[1..] == Lower(s[1..]) && Lower(t)[1..] == Lower(t[1..]);
      LoweringKeepsLetters(s[1..], t[1..]);
      forall i | 0 <= i < |s|
        ensures s[i] == t[i] || Capital(s[i], t[i]) || Capital(t[i], s[i])
      {
        if i > 0 {
          assert s[i] == s[1..][i - 1] && t[i] == t[1..][i - 1];
        }
      }
    }
  }

  lemma OneDeviceIsOneIdentity(a: Named, b: Named)
    ensures OneDevice(a, b) <==>
              && ActuatorIdentity(a).Some? && ActuatorIdentity(b).Some?
              && MayBeOne(ActuatorIdentity(a).value, ActuatorIdentity(b).value)
  {
    if ActuatorIdentity(a).Some? && ActuatorIdentity(b).Some? {
      if SameLetters(a.source.value, b.source.value) {
        LoweringForgetsCase(a.source.value, b.source.value);
      }
      if Lower(a.source.value) == Lower(b.source.value) {
        LoweringKeepsLetters(a.source.value, b.source.value);
      }
    }
  }

  lemma {:induction false} IdentitiesAreNamed(devices: seq<Named>)
    ensures forall i :: 0 <= i < |devices| && ActuatorIdentity(devices[i]).Some? ==>
              ActuatorIdentity(devices[i]).value in Identities(devices)
    ensures forall id :: id in Identities(devices) ==>
              exists i :: 0 <= i < |devices| && ActuatorIdentity(devices[i]) == Some(id)
  {
    if devices != [] {
      IdentitiesAreNamed(devices[1..]);
      assert devices == [devices[0]] + devices[1..];
    }
  }

  /** An entry of the one and an entry of the other that name one device. */
  ghost predicate ShareADevice(ours: seq<Named>, theirs: seq<Named>) {
    exists i, j :: 0 <= i < |ours| && 0 <= j < |theirs| && OneDevice(ours[i], theirs[j])
  }

  lemma ClashingIsSharing(ours: seq<Named>, theirs: seq<Named>)
    ensures Clash(Owned(ours), Owned(theirs)) <==> ShareADevice(ours, theirs)
  {
    IdentitiesAreNamed(ours);
    IdentitiesAreNamed(theirs);
    OnceKeepsWhatIsApart(Identities(ours));
    OnceKeepsWhatIsApart(Identities(theirs));
    if Clash(Owned(ours), Owned(theirs)) {
      var i, j :| 0 <= i < |Owned(ours)| && 0 <= j < |Owned(theirs)| && MayBeOne(Owned(ours)[i], Owned(theirs)[j]);
      assert Owned(ours)[i] in Identities(ours) && Owned(theirs)[j] in Identities(theirs);
      var k :| 0 <= k < |ours| && ActuatorIdentity(ours[k]) == Some(Owned(ours)[i]);
      var l :| 0 <= l < |theirs| && ActuatorIdentity(theirs[l]) == Some(Owned(theirs)[j]);
      OneDeviceIsOneIdentity(ours[k], theirs[l]);
    }
    if ShareADevice(ours, theirs) {
      var i, j :| 0 <= i < |ours| && 0 <= j < |theirs| && OneDevice(ours[i], theirs[j]);
      OneDeviceIsOneIdentity(ours[i], theirs[j]);
      assert ActuatorIdentity(ours[i]).value in Owned(ours) && ActuatorIdentity(theirs[j]).value in Owned(theirs);
    }
  }

  /** What another control owns is a matter of entries: a document is owned elsewhere if and only if one
      of its entries and one of another's name one device, sources compared without their case and devices
      with it, where the other's `enabled` is true or left out, and not anything else. */
  lemma TheEntriesDecide(devices: seq<Named>, documents: Documents, excluding: string)
    ensures OwnedElsewhere(Owned(devices), documents, excluding) <==>
              exists name :: name in documents && name != excluding
                             && (documents[name].enabled == Omitted || documents[name].enabled == Is(true))
                             && ShareADevice(devices, documents[name].devices)
  {
    forall name | name in documents
      ensures Clash(Owned(devices), Owned(documents[name].devices)) <==> ShareADevice(devices, documents[name].devices)
    {
      ClashingIsSharing(devices, documents[name].devices);
    }
    if OwnedElsewhere(Owned(devices), documents, excluding) {
      var name :| name in documents && Commands(Owned(devices), documents, excluding, name);
      assert ShareADevice(devices, documents[name].devices);
    }
    if name :| name in documents && name != excluding && ControlIsEnabled(documents[name])
               && ShareADevice(devices, documents[name].devices) {
      assert Commands(Owned(devices), documents, excluding, name);
    }
  }

  /** The case of a device is the bridge's own: a document whose devices are, letter for letter, no other
      enabled control's is owned nowhere else, however alike their names but for case. */
  lemma CaseOfADeviceIsKept(devices: seq<Named>, documents: Documents, excluding: string)
    requires forall name, i, j :: name in documents && name != excluding && ControlIsEnabled(documents[name])
               && 0 <= i < |devices| && 0 <= j < |documents[name].devices|
               && devices[i].Named? && documents[name].devices[j].Named? && devices[i].device.Some?
               ==> devices[i].device != documents[name].devices[j].device
    ensures !OwnedElsewhere(Owned(devices), documents, excluding)
  {
    TheEntriesDecide(devices, documents, excluding);
  }

  /** The first pair of the two lists that may be one actuator. */
  method FirstClash(ours: seq<Identity>, theirs: seq<Identity>) returns (found: Option<Identity>)
    ensures found.Some? <==> Clash(ours, theirs)
    ensures found.Some? ==> found.value in ours && Clash([found.value], theirs)
  {
    for j := 0 to |theirs|
      invariant forall a, b :: 0 <= a < |ours| && 0 <= b < j ==> !MayBeOne(ours[a], theirs[b])
    {
      for i := 0 to |ours|
        invariant forall a :: 0 <= a < i ==> !MayBeOne(ours[a], theirs[j])
      {
        if MayBeOne(ours[i], theirs[j]) {
          assert MayBeOne([ours[i]][0], theirs[j]);
          return Some(ours[i]);
        }
      }
    }
    found := None;
  }

  /** The order Python sorts text in. */
  predicate Precedes(a: string, b: string) {
    a == "" || (b != "" && (a[0] < b[0] || (a[0] == b[0] && Precedes(a[1..], b[1..]))))
  }

  /** They agree up to here, and here the first is less. */
  predicate LessAt(a: string, b: string, i: nat) {
    i < |a| && i < |b| && a[..i] == b[..i] && a[i] < b[i]
  }

  lemma OneCharacterOn(a: string, b: string, i: nat)
    requires a != "" && b != "" && a[0] == b[0]
    ensures LessAt(a, b, i + 1) <==> LessAt(a[1..], b[1..], i)
  {
    if i < |a| - 1 && i < |b| - 1 {
      assert a[..i + 1] == [a[0]] + a[1..][..i] && b[..i + 1] == [b[0]] + b[1..][..i];
      assert a[1..][..i] == a[..i + 1][1..] && b[1..][..i] == b[..i + 1][1..];
    }
  }

  lemma DifferentAtOnce(a: string, b: string)
    requires a != "" && b != "" && a[0] != b[0]
    ensures (exists i: nat :: LessAt(a, b, i)) <==> a[0] < b[0]
  {
    if a[0] < b[0] {
      assert a[..0] == b[..0];
      assert LessAt(a, b, 0);
    }
    forall i: nat | LessAt(a, b, i)
      ensures i == 0
    {
    }
  }

  /** It is the order of the first character that differs, and a text comes before those it begins. */
  lemma {:induction false} PrecedesIsLexicographic(a: string, b: string)
    ensures Precedes(a, b) <==> a <= b || exists i: nat :: LessAt(a, b, i)
  {
    if a != "" && b != "" {
      if a[0] == b[0] {
        PrecedesIsLexicographic(a[1..], b[1..]);
        assert a == [a[0]] + a[1..] && b == [b[0]] + b[1..];
        if i: nat :| LessAt(a[1..], b[1..], i) {
          OneCharacterOn(a, b, i);
        }
        if i: nat :| LessAt(a, b, i) {
          assert i > 0;
          OneCharacterOn(a, b, i - 1);
        }
      } else {
        DifferentAtOnce(a, b);
      }
    }
  }

  lemma {:induction false} PrecedesIsTransitive(a: string, b: string, c: string)
    requires Precedes(a, b) && Precedes(b, c)
    ensures Precedes(a, c)
  {
    if a != "" && a[0] == b[0] && b[0] == c[0] {
      PrecedesIsTransitive(a[1..], b[1..], c[1..]);
    }
  }

  lemma {:induction false} PrecedesIsTotal(a: string, b: string)
    ensures Precedes(a, b) || Precedes(b, a)
    ensures Precedes(a, b) && Precedes(b, a) ==> a == b
  {
    if a != "" && b != "" && a[0] == b[0] {
      PrecedesIsTotal(a[1..], b[1..]);
      assert a == [a[0]] + a[1..] && b == [b[0]] + b[1..];
    }
  }

  ghost predicate IsFirst(first: string, names: set<string>) {
    first in names && forall name :: name in names ==> Precedes(first, name)
  }

  lemma FirstOfOneMore(first: string, names: set<string>, one: string)
    requires IsFirst(first, names)
    ensures IsFirst(if Precedes(one, first) then one else first, names + {one})
  {
    PrecedesIsTotal(one, first);
    PrecedesIsTotal(one, one);
    if Precedes(one, first) {
      forall name | name in names
        ensures Precedes(one, name)
      {
        PrecedesIsTransitive(one, first, name);
      }
    }
  }

  lemma {:induction false} ThereIsAFirst(names: set<string>) returns (first: string)
    requires names != {}
    ensures IsFirst(first, names)
    decreases |names|
  {
    var one :| one in names;
    var others := names - {one};
    assert names == others + {one};
    if others == {} {
      PrecedesIsTotal(one, one);
      first := one;
    } else {
      var least := ThereIsAFirst(others);
      FirstOfOneMore(least, others, one);
      first := if Precedes(one, least) then one else least;
    }
  }

  /** `enabled_owner_of`: the names are considered in sorted order, so the control reported is the first
      of those that clash, whatever order the documents were listed in. */
  method EnabledOwnerOf(actuators: seq<Identity>, documents: Documents, excluding: string)
    returns (owner: Option<(string, Identity)>)
    ensures owner.Some? <==> OwnedElsewhere(actuators, documents, excluding)
    ensures owner.Some? ==> owner.value.0 in documents && Commands(actuators, documents, excluding, owner.value.0)
    ensures owner.Some? ==> owner.value.1 in actuators && Commands([owner.value.1], documents, excluding, owner.value.0)
    ensures owner.Some? ==> forall name :: name in documents && Commands(actuators, documents, excluding, name)
                              ==> Precedes(owner.value.0, name)
  {
    var todo := documents.Keys;
    while todo != {}
      invariant todo <= documents.Keys
      invariant forall name :: name in documents && name !in todo ==> !Commands(actuators, documents, excluding, name)
      decreases |todo|
    {
      ghost var first := ThereIsAFirst(todo);
      assert first in todo && forall other :: other in todo ==> Precedes(first, other);
      var name :| name in todo && forall other :: other in todo ==> Precedes(name, other);
      if name != excluding && ControlIsEnabled(documents[name]) {
        var clash := FirstClash(actuators, Owned(documents[name].devices));
        if clash.Some? {
          return Some((name, clash.value));
        }
      }
      todo := todo - {name};
    }
    owner := None;
  }

  // ---------- the scan over everything stored ----------

  datatype Claim = Claim(name: string, id: Identity)

  datatype Problem = Problem(owner: string, name: string, id: Identity)

  /** What an enabled control commands, and nothing for any other. */
  function OwnedBy(documents: Documents, name: string): seq<Identity>
    requires name in documents
  {
    if ControlIsEnabled(documents[name]) then Owned(documents[name].devices) else []
  }

  function Claiming(name: string, ids: seq<Identity>): seq<Claim> {
    if ids == [] then [] else Claiming(name, ids[..|ids| - 1]) + [Claim(name, ids[|ids| - 1])]
  }

  /** Every identity the enabled controls command, in the order the scan meets them. */
  function Claims(names: seq<string>, documents: Documents): seq<Claim>
    requires forall i :: 0 <= i < |names| ==> names[i] in documents
  {
    if names == [] then []
    else
      var n := |names| - 1;
      Claims(names[..n], documents) + Claiming(names[n], OwnedBy(documents, names[n]))
  }

  function Holder(claimed: seq<Claim>, id: Identity): Option<string> {
    if claimed == [] then None
    else if MayBeOne(id, claimed[0].id) then Some(claimed[0].name)
    else Holder(claimed[1..], id)
  }

  /** The greedy scan: what is claimed and what is reported after meeting these. Only an identity
      that clashed with nothing claimed is claimed itself. */
  function Scan(met: seq<Claim>): (seq<Claim>, seq<Problem>) {
    if met == [] then ([], [])
    else
      var (claimed, problems) := Scan(met[..|met| - 1]);
      var c := met[|met| - 1];
      var holder := Holder(claimed, c.id);
      if holder.Some? then (claimed, problems + [Problem(holder.value, c.name, c.id)])
      else (claimed + [c], problems)
  }

  /** `shared_actuator_problems`. */
  method SharedActuatorProblems(names: seq<string>, documents: Documents) returns (problems: seq<Problem>)
    requires forall i :: 0 <= i < |names| ==> names[i] in documents
    ensures problems == Scan(Claims(names, documents)).1
  {
    var claimed: seq<Claim> := [];
    ghost var met: seq<Claim> := [];
    problems := [];
    for i := 0 to |names|
      invariant met == Claims(names[..i], documents) && Scan(met) == (claimed, problems)
    {
      OneMoreName(names, documents, i);
      if ControlIsEnabled(documents[names[i]]) {
        var ids := Owned(documents[names[i]].devices);
        claimed, problems := ScanDocument(names[i], ids, claimed, problems, met);
        met := met + Claiming(names[i], ids);
      }
    }
    assert names[..|names|] == names;
  }

  lemma OneMoreName(names: seq<string>, documents: Documents, i: nat)
    requires i < |names| && forall j :: 0 <= j < |names| ==> names[j] in documents
    ensures Claims(names[..i + 1], documents)
         == Claims(names[..i], documents) + Claiming(names[i], OwnedBy(documents, names[i]))
    ensures !ControlIsEnabled(documents[names[i]]) ==>
              Claims(names[..i + 1], documents) == Claims(names[..i], documents)
  {
    assert names[..i + 1][..i] == names[..i];
  }

  /** One enabled document's part of the scan. */
  method ScanDocument(
    name: string, ids: seq<Identity>, claimed: seq<Claim>, problems: seq<Problem>, ghost before: seq<Claim>)
    returns (nowClaimed: seq<Claim>, nowProblems: seq<Problem>)
    requires (claimed, problems) == Scan(before)
    ensures (nowClaimed, nowProblems) == Scan(before + Claiming(name, ids))
  {
    nowClaimed, nowProblems := claimed, problems;
    ghost var met := before;
    assert ids[..0] == [] && before + [] == before;
    for j := 0 to |ids|
      invariant met == before + Claiming(name, ids[..j]) && Scan(met) == (nowClaimed, nowProblems)
    {
      var c := Claim(name, ids[j]);
      OneMoreClaim(met, c);
      OneMoreId(name, ids, j);
      assert met + [c] == before + Claiming(name, ids[..j + 1]);
      var owner := HolderOf(nowClaimed, ids[j]);
      if owner.Some? {
        nowProblems := nowProblems + [Problem(owner.value, name, ids[j])];
      } else {
        nowClaimed := nowClaimed + [c];
      }
      met := met + [c];
    }
    assert ids[..|ids|] == ids;
  }

  lemma OneMoreClaim(met: seq<Claim>, c: Claim)
    ensures var (claimed, problems) := Scan(met);
            var holder := Holder(claimed, c.id);
            Scan(met + [c]) == if holder.Some? then (claimed, problems + [Problem(holder.value, c.name, c.id)])
                               else (claimed + [c], problems)
  {
    assert (met + [c])[..|met|] == met;
  }

  lemma OneMoreId(name: string, ids: seq<Identity>, j: nat)
    requires j < |ids|
    ensures Claiming(name, ids[..j + 1]) == Claiming(name, ids[..j]) + [Claim(name, ids[j])]
  {
    assert ids[..j + 1][..j] == ids[..j];
  }

  method HolderOf(claimed: seq<Claim>, id: Identity) returns (owner: Option<string>)
    ensures owner == Holder(claimed, id)
  {
    var k := 0;
    assert claimed[0..] == claimed;
    while k < |claimed|
      invariant 0 <= k <= |claimed| && Holder(claimed, id) == Holder(claimed[k..], id)
    {
      assert claimed[k..][1..] == claimed[k + 1..];
      if MayBeOne(id, claimed[k].id) {
        return Some(claimed[k].name);
      }
      k := k + 1;
    }
    owner := None;
  }

  ghost predicate ClaimsApart(claims: seq<Claim>) {
    forall i, j :: 0 <= i < j < |claims| ==> !MayBeOne(claims[i].id, claims[j].id)
  }

  ghost predicate Real(p: Problem, met: seq<Claim>) {
    exists held :: MayBeOne(held, p.id) && Claim(p.owner, held) in met && Claim(p.name, p.id) in met
  }

  lemma {:induction false} HolderHolds(claimed: seq<Claim>, id: Identity)
    ensures var h := Holder(claimed, id);
            && (h.None? <==> forall c :: c in claimed ==> !MayBeOne(id, c.id))
            && (h.Some? ==> exists held :: MayBeOne(held, id) && Claim(h.value, held) in claimed)
  {
    if claimed != [] {
      HolderHolds(claimed[1..], id);
      assert claimed == [claimed[0]] + claimed[1..];
      if MayBeOne(id, claimed[0].id) {
        assert MayBeOne(claimed[0].id, id) && Claim(claimed[0].name, claimed[0].id) == claimed[0];
      }
    }
  }

  lemma ApartFromOneMore(met: seq<Claim>, c: Claim)
    ensures ClaimsApart(met + [c]) <==> ClaimsApart(met) && forall e :: e in met ==> !MayBeOne(c.id, e.id)
  {
    var all := met + [c];
    if ClaimsApart(all) {
      forall i, j | 0 <= i < j < |met|
        ensures !MayBeOne(met[i].id, met[j].id)
      {
        assert all[i] == met[i] && all[j] == met[j];
      }
      forall i | 0 <= i < |met|
        ensures !MayBeOne(c.id, met[i].id)
      {
        assert all[i] == met[i] && all[|met|] == c;
      }
    }
  }

  lemma ClashIsReal(claimed: seq<Claim>, met: seq<Claim>, c: Claim)
    requires Holder(claimed, c.id).Some? && forall e :: e in claimed ==> e in met
    ensures Real(Problem(Holder(claimed, c.id).value, c.name, c.id), met + [c])
    ensures exists e :: e in met && MayBeOne(c.id, e.id)
  {
    HolderHolds(claimed, c.id);
    var held :| MayBeOne(held, c.id) && Claim(Holder(claimed, c.id).value, held) in claimed;
    assert MayBeOne(c.id, Claim(Holder(claimed, c.id).value, held).id);
    assert Claim(Holder(claimed, c.id).value, held) in met + [c] && c in met + [c];
  }

  /** The greedy scan is silent exactly where every two identities it meets are apart, and each
      problem it reports is a real clash between two it met. */
  lemma {:induction false} ScanIsSilentWhenApart(met: seq<Claim>)
    ensures var (claimed, problems) := Scan(met);
            && (problems == [] <==> ClaimsApart(met))
            && (problems == [] ==> claimed == met)
            && (forall c :: c in claimed ==> c in met)
            && (forall p :: p in problems ==> Real(p, met))
  {
    if met != [] {
      var earlier, c := met[..|met| - 1], met[|met| - 1];
      var (claimed, problems) := Scan(earlier);
      assert met == earlier + [c];
      ScanIsSilentWhenApart(earlier);
      ApartFromOneMore(earlier, c);
      HolderHolds(claimed, c.id);
      forall p | p in problems
        ensures Real(p, met)
      {
        var held :| MayBeOne(held, p.id) && Claim(p.owner, held) in earlier && Claim(p.name, p.id) in earlier;
        assert Claim(p.owner, held) in met && Claim(p.name, p.id) in met;
      }
      if Holder(claimed, c.id).Some? {
        ClashIsReal(claimed, earlier, c);
      }
    }
  }

  // ---------- the two detectors agree ----------

  ghost predicate Lists(names: seq<string>, documents: Documents) {
    && (forall i, j :: 0 <= i < j < |names| ==> names[i] != names[j])
    && (forall name :: name in names <==> name in documents)
  }

  lemma {:induction false} ClaimingIsOwned(name: string, ids: seq<Identity>)
    ensures |Claiming(name, ids)| == |ids|
    ensures forall i :: 0 <= i < |ids| ==> Claiming(name, ids)[i] == Claim(name, ids[i])
  {
    if ids != [] {
      ClaimingIsOwned(name, ids[..|ids| - 1]);
    }
  }

  ghost predicate AllApart(names: seq<string>, documents: Documents)
    requires forall i :: 0 <= i < |names| ==> names[i] in documents
  {
    && (forall i :: 0 <= i < |names| ==> Apart(OwnedBy(documents, names[i])))
    && (forall i, j :: 0 <= i < j < |names| ==> !Clash(OwnedBy(documents, names[i]), OwnedBy(documents, names[j])))
  }

  ghost predicate AnyClashes(names: seq<string>, documents: Documents, ids: seq<Identity>)
    requires forall i :: 0 <= i < |names| ==> names[i] in documents
  {
    exists i :: 0 <= i < |names| && Clash(OwnedBy(documents, names[i]), ids)
  }

  lemma OneMoreIsApart(names: seq<string>, documents: Documents, name: string)
    requires name in documents && forall i :: 0 <= i < |names| ==> names[i] in documents
    ensures AllApart(names + [name], documents) <==>
              && AllApart(names, documents) && Apart(OwnedBy(documents, name))
              && !AnyClashes(names, documents, OwnedBy(documents, name))
  {
    var all := names + [name];
    assert forall i :: 0 <= i < |names| ==> all[i] == names[i];
    assert all[|names|] == name;
  }

  lemma OneMoreMayClash(names: seq<string>, documents: Documents, name: string, ids: seq<Identity>)
    requires name in documents && forall i :: 0 <= i < |names| ==> names[i] in documents
    ensures AnyClashes(names + [name], documents, ids) <==>
              AnyClashes(names, documents, ids) || Clash(OwnedBy(documents, name), ids)
  {
    var all := names + [name];
    assert forall i :: 0 <= i < |names| ==> all[i] == names[i];
    assert all[|names|] == name;
  }

  /** Two claims of the scan clash exactly where one document clashes with itself or with another. */
  lemma {:induction false} ApartDocumentByDocument(names: seq<string>, documents: Documents)
    requires forall i :: 0 <= i < |names| ==> names[i] in documents
    ensures ClaimsApart(Claims(names, documents)) <==> AllApart(names, documents)
  {
    if names != [] {
      var earlier, name := names[..|names| - 1], names[|names| - 1];
      assert names == earlier + [name];
      ApartDocumentByDocument(earlier, documents);
      OneMoreIsApart(earlier, documents, name);
      var ids := OwnedBy(documents, name);
      SplitApart(Claims(earlier, documents), Claiming(name, ids));
      ClaimingIsOwned(name, ids);
      NoneCross(earlier, documents, ids);
      assert ClaimsApart(Claiming(name, ids)) <==> Apart(ids);
    }
  }

  ghost predicate Crosses(claims: seq<Claim>, ids: seq<Identity>) {
    exists i, j :: 0 <= i < |claims| && 0 <= j < |ids| && MayBeOne(claims[i].id, ids[j])
  }

  lemma {:induction false} NoneCross(names: seq<string>, documents: Documents, ids: seq<Identity>)
    requires forall i :: 0 <= i < |names| ==> names[i] in documents
    ensures Crosses(Claims(names, documents), ids) <==> AnyClashes(names, documents, ids)
  {
    if names != [] {
      var earlier, name := names[..|names| - 1], names[|names| - 1];
      assert names == earlier + [name];
      NoneCross(earlier, documents, ids);
      OneMoreMayClash(earlier, documents, name, ids);
      CrossesEither(Claims(earlier, documents), Claiming(name, OwnedBy(documents, name)), ids);
      ClaimingCrosses(name, OwnedBy(documents, name), ids);
    }
  }

  lemma ClaimingCrosses(name: string, mine: seq<Identity>, ids: seq<Identity>)
    ensures Crosses(Claiming(name, mine), ids) <==> Clash(mine, ids)
  {
    ClaimingIsOwned(name, mine);
    if Clash(mine, ids) {
      var i, j :| 0 <= i < |mine| && 0 <= j < |ids| && MayBeOne(mine[i], ids[j]);
      assert MayBeOne(Claiming(name, mine)[i].id, ids[j]);
    }
  }

  lemma CrossesEither(a: seq<Claim>, b: seq<Claim>, ids: seq<Identity>)
    ensures Crosses(a + b, ids) <==> Crosses(a, ids) || Crosses(b, ids)
  {
    if Crosses(a, ids) {
      var i, j :| 0 <= i < |a| && 0 <= j < |ids| && MayBeOne(a[i].id, ids[j]);
      assert (a + b)[i] == a[i];
    }
    if Crosses(b, ids) {
      var i, j :| 0 <= i < |b| && 0 <= j < |ids| && MayBeOne(b[i].id, ids[j]);
      assert (a + b)[|a| + i] == b[i];
    }
  }

  lemma SplitApart(earlier: seq<Claim>, these: seq<Claim>)
    ensures ClaimsApart(earlier + these) <==>
              && ClaimsApart(earlier) && ClaimsApart(these)
              && (forall i, j :: 0 <= i < |earlier| && 0 <= j < |these| ==> !MayBeOne(earlier[i].id, these[j].id))
  {
    var all := earlier + these;
    if ClaimsApart(all) {
      forall i, j | 0 <= i < j < |these|
        ensures !MayBeOne(these[i].id, these[j].id)
      {
        assert all[|earlier| + i] == these[i] && all[|earlier| + j] == these[j];
      }
      forall i, j | 0 <= i < |earlier| && 0 <= j < |these|
        ensures !MayBeOne(earlier[i].id, these[j].id)
      {
        assert all[i] == earlier[i] && all[|earlier| + j] == these[j];
      }
      assert forall i :: 0 <= i < |earlier| ==> all[i] == earlier[i];
    }
  }

  /** No enabled document names one actuator twice, and `enabled_owner_of` finds no other owner for
      any of them. */
  ghost predicate NoOtherOwners(documents: Documents) {
    forall name :: name in documents && ControlIsEnabled(documents[name]) ==> SoleOwner(documents, name)
  }

  ghost predicate SoleOwner(documents: Documents, name: string)
    requires name in documents
  {
    && Apart(Owned(documents[name].devices))
    && !OwnedElsewhere(Owned(documents[name].devices), documents, name)
  }

  lemma SoleOwnersAreApart(names: seq<string>, documents: Documents)
    requires Lists(names, documents) && NoOtherOwners(documents)
    ensures AllApart(names, documents)
  {
    forall i | 0 <= i < |names|
      ensures Apart(OwnedBy(documents, names[i]))
    {
      assert ControlIsEnabled(documents[names[i]]) ==> SoleOwner(documents, names[i]);
    }
    forall i, j | 0 <= i < j < |names|
      ensures !Clash(OwnedBy(documents, names[i]), OwnedBy(documents, names[j]))
    {
      if ControlIsEnabled(documents[names[i]]) && ControlIsEnabled(documents[names[j]]) {
        assert SoleOwner(documents, names[i]);
        assert !Commands(Owned(documents[names[i]].devices), documents, names[i], names[j]);
      }
    }
  }

  lemma ApartIsSoleOwner(names: seq<string>, documents: Documents, name: string)
    requires Lists(names, documents) && AllApart(names, documents)
    requires name in documents && ControlIsEnabled(documents[name])
    ensures SoleOwner(documents, name)
  {
    var i :| 0 <= i < |names| && names[i] == name;
    assert OwnedBy(documents, names[i]) == Owned(documents[name].devices);
    forall other | other in documents
      ensures !Commands(Owned(documents[name].devices), documents, name, other)
    {
      var j :| 0 <= j < |names| && names[j] == other;
      ClashBothWays(OwnedBy(documents, names[i]), OwnedBy(documents, names[j]));
    }
  }

  /** For any stored documents, the greedy scan is silent if and only if no enabled document names
      one actuator twice and `enabled_owner_of` finds no other owner for any of them - although the
      relation it scans by is not transitive. */
  lemma TheDetectorsAgree(names: seq<string>, documents: Documents)
    requires Lists(names, documents)
    ensures Scan(Claims(names, documents)).1 == [] <==> NoOtherOwners(documents)
  {
    ScanIsSilentWhenApart(Claims(names, documents));
    ApartDocumentByDocument(names, documents);
    if NoOtherOwners(documents) {
      SoleOwnersAreApart(names, documents);
    }
    if AllApart(names, documents) {
      forall name | name in documents && ControlIsEnabled(documents[name])
        ensures SoleOwner(documents, name)
      {
        ApartIsSoleOwner(names, documents, name);
      }
    }
  }

  lemma ClashBothWays(ours: seq<Identity>, theirs: seq<Identity>)
    ensures Clash(ours, theirs) <==> Clash(theirs, ours)
  {
    if Clash(ours, theirs) {
      var i, j :| 0 <= i < |ours| && 0 <= j < |theirs| && MayBeOne(ours[i], theirs[j]);
      assert MayBeOne(theirs[j], ours[i]);
    }
    if Clash(theirs, ours) {
      var i, j :| 0 <= i < |theirs| && 0 <= j < |ours| && MayBeOne(theirs[i], ours[j]);
      assert MayBeOne(ours[j], theirs[i]);
    }
  }

  // ---------- which clashes are named ----------

  /** The first of the first `n` claims that the scan has let stand and that may be this identity. */
  function First(met: seq<Claim>, n: nat, id: Identity): (i: Option<nat>)
    requires n <= |met|
    ensures i.Some? ==> i.value < n
    decreases n, 0
  {
    if n == 0 then None
    else
      var earlier := First(met, n - 1, id);
      if earlier.Some? then earlier
      else if Stands(met, n - 1) && MayBeOne(id, met[n - 1].id) then Some(n - 1) else None
  }

  /** The scan lets a claim stand where none that stands before it may be the same actuator. */
  predicate Stands(met: seq<Claim>, j: nat)
    requires j < |met|
    decreases j, 1
  {
    First(met, j, met[j].id).None?
  }

  /** The scan names the clash of these two: meeting the later, it reports the earlier's control as
      the owner. A control that owns several actuators is named once for each of its claims that is
      met clashing with one that stands. */
  predicate Names(met: seq<Claim>, i: nat, j: nat) {
    i < j < |met| && First(met, j, met[j].id) == Some(i)
  }

  function Standing(met: seq<Claim>, n: nat): seq<Claim>
    requires n <= |met|
  {
    if n == 0 then [] else Standing(met, n - 1) + if Stands(met, n - 1) then [met[n - 1]] else []
  }

  function Reports(met: seq<Claim>, n: nat): seq<Problem>
    requires n <= |met|
  {
    if n == 0 then []
    else
      var first := First(met, n - 1, met[n - 1].id);
      Reports(met, n - 1)
      + if first.Some? then [Problem(met[first.value].name, met[n - 1].name, met[n - 1].id)] else []
  }

  lemma {:induction false} HolderInTurn(a: seq<Claim>, b: seq<Claim>, id: Identity)
    ensures Holder(a + b, id) == if Holder(a, id).Some? then Holder(a, id) else Holder(b, id)
  {
    if a == [] {
      assert a + b == b;
    } else {
      HolderInTurn(a[1..], b, id);
      assert (a + b)[1..] == a[1..] + b;
    }
  }

  lemma {:induction false} TheHolderIsTheFirst(met: seq<Claim>, n: nat, id: Identity)
    requires n <= |met|
    ensures var first := First(met, n, id);
            Holder(Standing(met, n), id) == if first.Some? then Some(met[first.value].name) else None
  {
    if n > 0 {
      TheHolderIsTheFirst(met, n - 1, id);
      var last := if Stands(met, n - 1) then [met[n - 1]] else [];
      HolderInTurn(Standing(met, n - 1), last, id);
      HolderOfOne(met[n - 1], id);
    }
  }

  lemma HolderOfOne(c: Claim, id: Identity)
    ensures Holder([], id).None? && Holder([c], id) == if MayBeOne(id, c.id) then Some(c.name) else None
  {
    assert [c][1..] == [];
  }

  /** What the scan claims and reports, claim by claim. */
  lemma {:induction false} TheScanReports(met: seq<Claim>, n: nat)
    requires n <= |met|
    ensures Scan(met[..n]) == (Standing(met, n), Reports(met, n))
  {
    if n > 0 {
      TheScanReports(met, n - 1);
      TheHolderIsTheFirst(met, n - 1, met[n - 1].id);
      OneMoreClaim(met[..n - 1], met[n - 1]);
      assert met[..n] == met[..n - 1] + [met[n - 1]];
      assert Standing(met, n - 1) + [] == Standing(met, n - 1) && Reports(met, n - 1) + [] == Reports(met, n - 1);
    }
  }

  lemma {:induction false} ReportsAreNamed(met: seq<Claim>, n: nat, p: Problem)
    requires n <= |met|
    ensures p in Reports(met, n) <==>
              exists i, j :: 0 <= i < j < n && Names(met, i, j) && p == Problem(met[i].name, met[j].name, met[j].id)
  {
    if n > 0 {
      ReportsAreNamed(met, n - 1, p);
      var first := First(met, n - 1, met[n - 1].id);
      if first.Some? {
        assert Names(met, first.value, n - 1);
      }
    }
  }

  predicate MayClash(met: seq<Claim>, i: nat, j: nat) {
    i < j < |met| && MayBeOne(met[i].id, met[j].id)
  }

  ghost predicate EveryClashIsNamed(met: seq<Claim>) {
    forall i: nat, j: nat :: MayClash(met, i, j) ==> Names(met, i, j)
  }

  /** No claim may be the same actuator as two earlier ones, and none that may be the same as an
      earlier one may be the same as a later one too. */
  ghost predicate NoChains(met: seq<Claim>) {
    && (forall i: nat, k: nat, j: nat :: MayClash(met, i, j) && MayClash(met, k, j) ==> i == k)
    && (forall h: nat, i: nat, j: nat :: !(MayClash(met, h, i) && MayClash(met, i, j)))
  }

  lemma {:induction false} TheFirstClashes(met: seq<Claim>, n: nat, id: Identity)
    requires n <= |met|
    ensures var first := First(met, n, id);
            && (first.Some? ==> Stands(met, first.value) && MayBeOne(id, met[first.value].id))
            && (first.None? ==> forall i :: 0 <= i < n && Stands(met, i) ==> !MayBeOne(id, met[i].id))
  {
    if n > 0 {
      TheFirstClashes(met, n - 1, id);
    }
  }

  lemma NamedIsAClash(met: seq<Claim>, i: nat, j: nat)
    requires Names(met, i, j)
    ensures MayClash(met, i, j) && Stands(met, i) && !Stands(met, j)
  {
    TheFirstClashes(met, j, met[j].id);
  }

  /** Every clash among the claims is named exactly where there are no chains of them: so a pair that is
      missed is always a third control's doing, or a third actuator's. */
  lemma EveryClashIsNamedWithoutChains(met: seq<Claim>)
    ensures EveryClashIsNamed(met) <==> NoChains(met)
  {
    if EveryClashIsNamed(met) {
      forall h: nat, i: nat, j: nat | MayClash(met, h, i) && MayClash(met, i, j)
        ensures false
      {
        NamedIsAClash(met, h, i);
        NamedIsAClash(met, i, j);
      }
    }
    if NoChains(met) {
      forall i: nat, j: nat | MayClash(met, i, j)
        ensures Names(met, i, j)
      {
        WithoutChainsItIsNamed(met, i, j);
      }
    }
  }

  lemma WithoutChainsItIsNamed(met: seq<Claim>, i: nat, j: nat)
    requires NoChains(met) && MayClash(met, i, j)
    ensures Names(met, i, j)
  {
    TheFirstClashes(met, i, met[i].id);
    var before := First(met, i, met[i].id);
    assert before.Some? ==> MayClash(met, before.value, i);
    TheFirstClashes(met, j, met[j].id);
    var first := First(met, j, met[j].id);
    assert first.Some? ==> MayClash(met, first.value, j);
  }

  /** For stored documents: the problems reported are the clashes named, and where there are no chains
      every two controls that clash are named together. */
  lemma ClashingControlsAreNamed(names: seq<string>, documents: Documents, a: string, b: string)
    requires Lists(names, documents) && a in documents && b in documents && a != b
    requires NoChains(Claims(names, documents))
    requires Clash(OwnedBy(documents, a), OwnedBy(documents, b))
    ensures exists p :: p in Scan(Claims(names, documents)).1 && {p.owner, p.name} == {a, b}
  {
    var met := Claims(names, documents);
    var i, j := ClashingClaims(names, documents, a, b);
    var first, last := if i < j then i else j, if i < j then j else i;
    assert MayClash(met, first, last);
    WithoutChainsItIsNamed(met, first, last);
    TheProblemsAreTheNamedClashes(met, Problem(met[first].name, met[last].name, met[last].id));
  }

  /** The problems of the scan are the clashes it names, and nothing else. */
  lemma TheProblemsAreTheNamedClashes(met: seq<Claim>, p: Problem)
    ensures p in Scan(met).1 <==>
              exists i, j :: 0 <= i < j < |met| && Names(met, i, j) && p == Problem(met[i].name, met[j].name, met[j].id)
  {
    TheScanReports(met, |met|);
    assert met[..|met|] == met;
    ReportsAreNamed(met, |met|, p);
  }

  lemma ClashingClaims(names: seq<string>, documents: Documents, a: string, b: string) returns (i: nat, j: nat)
    requires Lists(names, documents) && a in documents && b in documents && a != b
    requires Clash(OwnedBy(documents, a), OwnedBy(documents, b))
    ensures var met := Claims(names, documents);
            && i < |met| && j < |met| && i != j && met[i].name == a && met[j].name == b
            && MayBeOne(met[i].id, met[j].id)
  {
    var x, y :| 0 <= x < |OwnedBy(documents, a)| && 0 <= y < |OwnedBy(documents, b)|
                && MayBeOne(OwnedBy(documents, a)[x], OwnedBy(documents, b)[y]);
    i := ClaimIsMet(names, documents, a, x);
    j := ClaimIsMet(names, documents, b, y);
  }

  lemma {:induction false} ClaimIsMet(names: seq<string>, documents: Documents, a: string, x: nat) returns (i: nat)
    requires forall k :: 0 <= k < |names| ==> names[k] in documents
    requires a in names && a in documents && x < |OwnedBy(documents, a)|
    ensures i < |Claims(names, documents)| && Claims(names, documents)[i] == Claim(a, OwnedBy(documents, a)[x])
  {
    var n := |names| - 1;
    var earlier := Claims(names[..n], documents);
    ClaimingIsOwned(names[n], OwnedBy(documents, names[n]));
    if names[n] == a {
      i := |earlier| + x;
    } else {
      assert names == names[..n] + [names[n]];
      i := ClaimIsMet(names[..n], documents, a, x);
    }
  }

  // ---------- a clash that is missed ----------

  /** An enabled control that commands one lamp. */
  function LampControl(instance: Option<string>): Document {
    Document(Omitted, [Named(Some("hue"), instance, Some("far"))], "")
  }

  function ThreeOnOneLamp(): Documents {
    map["a" := LampControl(Some("one")), "b" := LampControl(None), "c" := LampControl(Some("two"))]
  }

  lemma ALampIsOwned(instance: Option<string>)
    ensures Owned(LampControl(instance).devices) == [Bridge(instance)]
  {
    var devices := LampControl(instance).devices;
    assert devices[1..] == [] && Identities([]) == [];
    assert "hue"[1..] == "ue" && "ue"[1..] == "e" && "e"[1..] == "";
    assert Lower("") == "" && Lower("e") == "e" && Lower("ue") == "ue" && Lower("hue") == "hue";
    assert Identities(devices) == [Bridge(instance)];
    assert [Bridge(instance)][1..] == [] && Once([]) == [];
  }

  lemma {:induction false} ClaimsInTurn(names: seq<string>, documents: Documents, id: Identity)
    requires names != [] && forall i :: 0 <= i < |names| ==> names[i] in documents
    requires OwnedBy(documents, names[|names| - 1]) == [id]
    ensures Claims(names, documents) == Claims(names[..|names| - 1], documents) + [Claim(names[|names| - 1], id)]
  {
    assert [id][..0] == [] && Claiming(names[|names| - 1], [id]) == [Claim(names[|names| - 1], id)];
  }

  lemma ThreeClaims(documents: Documents, a: Claim, b: Claim, c: Claim)
    requires a.name in documents && OwnedBy(documents, a.name) == [a.id]
    requires b.name in documents && OwnedBy(documents, b.name) == [b.id]
    requires c.name in documents && OwnedBy(documents, c.name) == [c.id]
    ensures Claims([a.name, b.name, c.name], documents) == [a, b, c]
  {
    var three, two, one := [a.name, b.name, c.name], [a.name, b.name], [a.name];
    assert three[..2] == two && two[..1] == one && one[..0] == [];
    ClaimsInTurn(one, documents, a.id);
    ClaimsInTurn(two, documents, b.id);
    ClaimsInTurn(three, documents, c.id);
  }

  lemma TheThreeOwn(documents: Documents)
    requires documents == ThreeOnOneLamp()
    ensures "a" in documents && OwnedBy(documents, "a") == [Bridge(Some("one"))]
    ensures "b" in documents && OwnedBy(documents, "b") == [Bridge(None)]
    ensures "c" in documents && OwnedBy(documents, "c") == [Bridge(Some("two"))]
  {
    ALampIsOwned(Some("one"));
    ALampIsOwned(None);
    ALampIsOwned(Some("two"));
  }

  lemma TheThreeDiffer()
    ensures MayBeOne(Bridge(None), Bridge(Some("one"))) && MayBeOne(Bridge(None), Bridge(Some("two")))
    ensures !MayBeOne(Bridge(Some("two")), Bridge(Some("one"))) && "a" != "c" && "b" != "c"
  {
    assert "one"[0] != "two"[0] && "a"[0] != "c"[0] && "b"[0] != "c"[0];
  }

  lemma TheScanOfThreeLamps(documents: Documents, a: Claim, b: Claim, c: Claim)
    requires a.name in documents && OwnedBy(documents, a.name) == [a.id]
    requires b.name in documents && OwnedBy(documents, b.name) == [b.id]
    requires c.name in documents && OwnedBy(documents, c.name) == [c.id]
    requires MayBeOne(b.id, a.id) && !MayBeOne(c.id, a.id) && MayBeOne(b.id, c.id)
    ensures Clash(OwnedBy(documents, b.name), OwnedBy(documents, c.name))
    ensures Scan(Claims([a.name, b.name, c.name], documents)).1 == [Problem(a.name, b.name, b.id)]
  {
    ThreeClaims(documents, a, b, c);
    ScanOfThree(a, b, c);
    assert MayBeOne(OwnedBy(documents, b.name)[0], OwnedBy(documents, c.name)[0]);
  }

  /** The scan is meant to report one problem for each pair of controls that clash, and does not: of
      three stored controls on one lamp, the middle one naming no instance, the second and third clash
      too, and nothing reported names the third. */
  lemma TheScanDoesNotNameEveryPair(documents: Documents, names: seq<string>)
    requires documents == ThreeOnOneLamp() && names == ["a", "b", "c"]
    ensures var problems := Scan(Claims(names, documents)).1;
            && Clash(OwnedBy(documents, "b"), OwnedBy(documents, "c"))
            && problems == [Problem("a", "b", Bridge(None))]
            && forall p :: p in problems ==> p.owner != "c" && p.name != "c"
  {
    TheThreeOwn(documents);
    TheThreeDiffer();
    var a, b, c := Claim("a", Bridge(Some("one"))), Claim("b", Bridge(None)), Claim("c", Bridge(Some("two")));
    assert names == [a.name, b.name, c.name];
    TheScanOfThreeLamps(documents, a, b, c);
  }

  lemma ScanOfThree(a: Claim, b: Claim, c: Claim)
    requires MayBeOne(b.id, a.id) && !MayBeOne(c.id, a.id)
    ensures Scan([a, b, c]).1 == [Problem(a.name, b.name, b.id)]
  {
    assert [] + [a] == [a] && [a] + [b] == [a, b] && [a, b] + [c] == [a, b, c];
    OneMoreClaim([], a);
    OneMoreClaim([a], b);
    OneMoreClaim([a, b], c);
    assert Holder([a], c.id).None? && Holder([a], b.id) == Some(a.name);
    assert [] + [Problem(a.name, b.name, b.id)] == [Problem(a.name, b.name, b.id)];
  }
}
