/** The two-way atom cache of plugins/xorg/xorg.c. */
module AtomCache {
  import opened Values

  type Atom = nat

  datatype Entry = Entry(name: string, atom: Atom)

  /** The atoms of the X server: fixed, and different for different names. */
  ghost predicate Injective(atomOf: string -> Atom) {
    forall m, n | atomOf(m) == atomOf(n) :: m == n
  }

  /** A lookup in either direction, with what the server would reply. */
  datatype Query = NameOf(atom: Atom, found: Option<string>) | AtomOf(name: string, interned: Option<Atom>)

  ghost predicate Honest(q: Query, atomOf: string -> Atom) {
    match q
    case NameOf(atom, reply) => reply.Some? ==> atomOf(reply.value) == atom
    case AtomOf(name, reply) => reply.Some? ==> reply.value == atomOf(name)
  }

  datatype Answer = Name(name: Option<string>) | Number(atom: Atom)

  class Cache {
    var byAtom: map<Atom, Entry>
    var byName: map<string, Entry>

    /** Both indices hold the same entries, each under its own keys, and the entries are those of the server. */
    ghost predicate Valid(atomOf: string -> Atom)
      reads this
    {
      && (forall a | a in byAtom :: byAtom[a].atom == a && byAtom[a].name in byName && byName[byAtom[a].name] == byAtom[a])
      && (forall n | n in byName :: byName[n].name == n && byName[n].atom in byAtom && byAtom[byName[n].atom] == byName[n])
      && (forall n | n in byName :: byName[n].atom == atomOf(n))
    }

    constructor (ghost atomOf: string -> Atom)
      ensures Valid(atomOf) && byAtom == map[] && byName == map[]
    {
      byAtom, byName := map[], map[];
    }

    /** Adding an entry to both indices, whose keys must be absent from them. */
    method Insert(name: string, atom: Atom, ghost atomOf: string -> Atom)
      requires Valid(atomOf) && Injective(atomOf) && atomOf(name) == atom && (atom !in byAtom || name !in byName)
      modifies this
      ensures Valid(atomOf) && atom !in old(byAtom) && name !in old(byName)
      ensures byAtom == old(byAtom)[atom := Entry(name, atom)] && byName == old(byName)[name := Entry(name, atom)]
    {
      var ae := Entry(name, atom);
      assert atom !in byAtom && name !in byName;
      byAtom := byAtom[atom := ae];
      byName := byName[name := ae];
    }

    /** `di_xorg_get_atom_name` */
    method GetAtomName(atom: Atom, reply: Option<string>, ghost atomOf: string -> Atom) returns (name: Option<string>)
      requires Valid(atomOf) && Injective(atomOf) && Honest(NameOf(atom, reply), atomOf)
      modifies this
      ensures Valid(atomOf)
      ensures name.Some? ==> atomOf(name.value) == atom && atom in byAtom && name.value in byName
      ensures name.None? <==> atom !in old(byAtom) && reply.None?
      ensures atom in old(byAtom) || reply.None? ==> unchanged(this)
      ensures forall a | a in old(byAtom) :: a in byAtom && byAtom[a] == old(byAtom)[a]
    {
      if atom in byAtom {
        return Some(byAtom[atom].name);
      }
      if reply.None? {
        return None;
      }
      Insert(reply.value, atom, atomOf);
      return Some(reply.value);
    }

    /** `di_xorg_intern_atom`; 0 stands for a failure. */
    method InternAtom(name: string, reply: Option<Atom>, ghost atomOf: string -> Atom) returns (atom: Atom)
      requires Valid(atomOf) && Injective(atomOf) && Honest(AtomOf(name, reply), atomOf)
      modifies this
      ensures Valid(atomOf)
      ensures atom == if name !in old(byName) && reply.None? then 0 else atomOf(name)
      ensures name in old(byName) || reply.None? ==> unchanged(this)
      ensures reply.Some? ==> name in byName && atom in byAtom
      ensures forall a | a in old(byAtom) :: a in byAtom && byAtom[a] == old(byAtom)[a]
    {
      if name in byName {
        return byName[name].atom;
      }
      if reply.None? {
        return 0;
      }
      Insert(name, reply.value, atomOf);
      return reply.value;
    }

    /** Any interleaving of both lookups: every answer is one that the server gives, and a lookup
        fails only if the server does. */
    method Session(queries: seq<Query>, ghost atomOf: string -> Atom) returns (answers: seq<Answer>)
      requires Valid(atomOf) && Injective(atomOf) && forall i | 0 <= i < |queries| :: Honest(queries[i], atomOf)
      modifies this
      ensures Valid(atomOf) && |answers| == |queries|
      ensures forall i | 0 <= i < |queries| :: Right(queries[i], answers[i], atomOf)
    {
      answers := [];
      for i := 0 to |queries|
        invariant Valid(atomOf) && |answers| == i
        invariant forall k | 0 <= k < i :: Right(queries[k], answers[k], atomOf)
      {
        match queries[i]
        case NameOf(atom, reply) =>
          var name := GetAtomName(atom, reply, atomOf);
          answers := answers + [Name(name)];
        case AtomOf(name, reply) =>
          var atom := InternAtom(name, reply, atomOf);
          answers := answers + [Number(atom)];
      }
    }
  }

  /** The two indices hold the same entries, and in them names and atoms determine each other. */
  lemma IndicesAgree(c: Cache, atomOf: string -> Atom)
    requires c.Valid(atomOf)
    ensures c.byAtom.Values == c.byName.Values
    ensures forall e, f | e in c.byAtom.Values && f in c.byAtom.Values :: e.name == f.name <==> e.atom == f.atom
  {
    forall e | e in c.byAtom.Values ensures e in c.byName.Values && c.byAtom[e.atom] == e && c.byName[e.name] == e {
      var a :| a in c.byAtom && c.byAtom[a] == e;
    }
    forall e | e in c.byName.Values ensures e in c.byAtom.Values {
      var n :| n in c.byName && c.byName[n] == e;
    }
  }

  ghost predicate Right(q: Query, a: Answer, atomOf: string -> Atom) {
    match q
    case NameOf(atom, reply) => a.Name? && (a.name.Some? ==> atomOf(a.name.value) == atom) && (a.name.None? ==> reply.None?)
    case AtomOf(name, reply) => a.Number? && (a.atom == atomOf(name) || (a.atom == 0 && reply.None?))
  }
}
