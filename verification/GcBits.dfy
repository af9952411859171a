/**
  The colour of an object as the bits of its mark byte: two whites, black, and
  gray as neither. The bit tests of the collector read the colours right.
 */
module GcBits {
  import opened GcHeap

  const WHITE0: bv8 := 1
  const WHITE1: bv8 := 2
  const BLACK: bv8 := 4
  const WHITEBITS: bv8 := 3

  // The bit of one of the two whites.
  function WhiteBit(w: bool): (b: bv8) { if w then WHITE1 else WHITE0 }

  // The colour bits of a mark.
  function Bits(m: Mark): (b: bv8) {
    match m
    case White(w) => WhiteBit(w)
    case Gray => 0
    case Black => BLACK
  }

  predicate IsWhite(b: bv8) { b & WHITEBITS != 0 }
  predicate IsBlack(b: bv8) { b & BLACK != 0 }
  predicate IsGray(b: bv8) { b & (WHITEBITS | BLACK) == 0 }

  // Dead: it has the white that is not the current one.
  predicate IsDead(currentwhite: bv8, b: bv8) { (b ^ WHITEBITS) & (currentwhite ^ WHITEBITS) == 0 }

  function WhiteToGray(b: bv8): (r: bv8) { b & !WHITEBITS }
  function GrayToBlack(b: bv8): (r: bv8) { b | BLACK }
  function BlackToGray(b: bv8): (r: bv8) { b & !BLACK }
  function MakeWhite(currentwhite: bv8, b: bv8): (r: bv8) { (b & !(BLACK | WHITEBITS)) | (currentwhite & WHITEBITS) }

  // The tests and the changes of the bits are those of the colours, whatever the
  // other bits of the byte.
  lemma BitsAreColours(m: Mark, cw: bool, b: bv8)
    requires b & 7 == Bits(m)
    ensures (IsWhite(b) <==> m.White?) && (IsBlack(b) <==> m == Black) && (IsGray(b) <==> m == Gray)
    ensures IsDead(WhiteBit(cw), b) <==> m == White(!cw)
    ensures m.White? ==> WhiteToGray(b) & 7 == Bits(Gray)
    ensures m == Gray ==> GrayToBlack(b) & 7 == Bits(Black)
    ensures m == Black ==> BlackToGray(b) & 7 == Bits(Gray)
    ensures MakeWhite(WhiteBit(cw), b) & 7 == Bits(White(cw))
    ensures WhiteBit(cw) ^ WHITEBITS == WhiteBit(!cw)
  {
    match m
    case White(w) =>
    case Gray =>
    case Black =>
  }

  // The mark bytes of all objects hold the colours of a collector state.
  ghost predicate Holds(s: State, bytes: map<Obj, bv8>) {
    bytes.Keys == s.mark.Keys && forall o :: o in bytes ==> bytes[o] & 7 == Bits(s.mark[o])
  }

  // The bit tests pick out the sets that the collector works with.
  lemma TestsAreSets(s: State, bytes: map<Obj, bv8>)
    requires Holds(s, bytes)
    ensures Whites(s) == set o | o in bytes && IsWhite(bytes[o])
    ensures Marked(s) == set o | o in bytes && !IsWhite(bytes[o])
    ensures Live(s) == set o | o in bytes && !IsDead(WhiteBit(s.cw), bytes[o])
  {
    hide Bits, IsWhite, IsBlack, IsGray, IsDead, WhiteToGray, GrayToBlack, BlackToGray, MakeWhite;
    forall o | o in bytes
      ensures (IsWhite(bytes[o]) <==> s.mark[o].White?) && (IsDead(WhiteBit(s.cw), bytes[o]) <==> s.mark[o] == White(!s.cw))
    {
      BitsAreColours(s.mark[o], s.cw, bytes[o]);
    }
  }

  // Each change of one byte is the repainting that the collector does: marking,
  // visiting, the backward barrier, and sweeping or the barrier while sweeping.
  lemma ChangesArePaint(s: State, bytes: map<Obj, bv8>, o: Obj)
    requires Holds(s, bytes) && o in bytes
    ensures s.mark[o].White? ==> Holds(s.(mark := s.mark[o := Gray]), bytes[o := WhiteToGray(bytes[o])])
    ensures s.mark[o] == Gray ==> Holds(s.(mark := s.mark[o := Black]), bytes[o := GrayToBlack(bytes[o])])
    ensures s.mark[o] == Black ==> Holds(s.(mark := s.mark[o := Gray]), bytes[o := BlackToGray(bytes[o])])
    ensures Holds(s.(mark := s.mark[o := White(s.cw)]), bytes[o := MakeWhite(WhiteBit(s.cw), bytes[o])])
    ensures Holds(s.(cw := !s.cw), bytes) && WhiteBit(!s.cw) == WhiteBit(s.cw) ^ WHITEBITS
  {
    BitsAreColours(s.mark[o], s.cw, bytes[o]);
    hide Bits, IsWhite, IsBlack, IsGray, IsDead, WhiteToGray, GrayToBlack, BlackToGray, MakeWhite, WhiteBit;
  }
}
