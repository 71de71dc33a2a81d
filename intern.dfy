/** The symbol table of src/intern.rs: a counter and two maps, one from
    symbols to their names and one from names to symbols, updated in place. */
module Intern {
  import opened Prelude

  /** `Symbol(u32)`; the counter's overflow after 2^32 symbols is not
      modelled. */
  datatype Symbol = Symbol(id: nat)

  class SymbolIntern {
    var currentId: nat
    var symToString: map<Symbol, string>
    var stringToSym: map<string, Symbol>

    /** Every symbol in either map was handed out before (its id is below the
        counter), and every name leads to a symbol whose name it is. The
        converse fails: `gen_sym_prefix` can take over a name that an older
        symbol still carries. */
    ghost predicate Valid()
      reads this
    {
      (forall s :: s in symToString ==> s.id < currentId)
      && (forall n :: n in stringToSym ==> stringToSym[n].id < currentId)
      && (forall n :: n in stringToSym ==> stringToSym[n] in symToString && symToString[stringToSym[n]] == n)
    }

    /** `SymbolIntern::new`: counter 0 and both maps empty. */
    constructor ()
      ensures Valid()
      ensures currentId == 0 && symToString == map[] && stringToSym == map[]
    {
      currentId := 0;
      symToString := map[];
      stringToSym := map[];
    }

    /** `gen_sym`: hand out the current id and advance the counter; the new
        symbol has no name yet. */
    method GenSym() returns (s: Symbol)
      requires Valid()
      modifies this
      ensures Valid()
      ensures s == Symbol(old(currentId)) && currentId == old(currentId) + 1
      ensures s !in symToString && Lookup(s).None?
      ensures symToString == old(symToString) && stringToSym == old(stringToSym)
    {
      s := Symbol(currentId);
      currentId := currentId + 1;
    }

    /** `intern`: the symbol already recorded for `name`, or a fresh one
        recorded in both maps. */
    method Intern(name: string) returns (s: Symbol)
      requires Valid()
      modifies this
      ensures Valid()
      ensures name in old(stringToSym) ==>
        s == old(stringToSym[name]) && currentId == old(currentId)
        && symToString == old(symToString) && stringToSym == old(stringToSym)
      ensures name !in old(stringToSym) ==>
        s == Symbol(old(currentId)) && currentId == old(currentId) + 1
        && symToString == old(symToString)[s := name] && stringToSym == old(stringToSym)[name := s]
      ensures SymbolForName(name) == Some(s) && Lookup(s) == Some(name)
      ensures s.id < currentId
    {
      if name in stringToSym {
        s := stringToSym[name];
      } else {
        s := GenSym();
        symToString := symToString[s := name];
        stringToSym := stringToSym[name := s];
      }
    }

    /** `gen_sym_prefix`: a fresh symbol named by the prefix followed by its
        id, recorded in both maps. If that name was already taken, the name
        now leads to the new symbol while the old symbol keeps the name. */
    method GenSymPrefix(prefix: string) returns (s: Symbol)
      requires Valid()
      modifies this
      ensures Valid()
      ensures s == Symbol(old(currentId)) && currentId == old(currentId) + 1
      ensures symToString == old(symToString)[s := prefix + NatToString(s.id)]
      ensures stringToSym == old(stringToSym)[prefix + NatToString(s.id) := s]
      ensures Lookup(s) == Some(prefix + NatToString(s.id)) && SymbolForName(prefix + NatToString(s.id)) == Some(s)
      ensures forall t :: t in old(symToString) ==> t in symToString && symToString[t] == old(symToString)[t]
    {
      s := GenSym();
      var name := prefix + NatToString(s.id);
      symToString := symToString[s := name];
      stringToSym := stringToSym[name := s];
    }

    /** `symbol_for_name`. */
    function SymbolForName(name: string): (r: Option<Symbol>)
      reads this
      ensures r.Some? <==> name in stringToSym
      ensures r.Some? ==> r.value == stringToSym[name]
    {
      if name in stringToSym then Some(stringToSym[name]) else None
    }

    /** `contains`: whether the name has a symbol. */
    function Contains(name: string): (b: bool)
      reads this
      ensures b <==> SymbolForName(name).Some?
    {
      name in stringToSym
    }

    /** `lookup`: the name of a symbol, if it has one. */
    function Lookup(s: Symbol): (r: Option<string>)
      reads this
      ensures r.Some? <==> s in symToString
      ensures r.Some? ==> r.value == symToString[s]
    {
      if s in symToString then Some(symToString[s]) else None
    }

    /** `lookup_or_anon`: the symbol's name, or "s" followed by its id for a
        symbol without one. */
    function LookupOrAnon(s: Symbol): (r: string)
      reads this
      ensures s in symToString ==> r == symToString[s]
      ensures s !in symToString ==> r == "s" + NatToString(s.id)
    {
      match Lookup(s)
      case Some(name) => name
      case None => "s" + NatToString(s.id)
    }

    /** A name looked up through its symbol comes back unchanged. */
    lemma NameRoundTrip(name: string)
      requires Valid() && Contains(name)
      ensures Lookup(SymbolForName(name).value) == Some(name)
    {
    }
  }
}
