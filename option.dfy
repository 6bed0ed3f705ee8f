/**
 * The optional-value container of fenz/option.hpp: a presence flag plus a
 * value slot, written here as a sum type. The members that only read
 * (hasValue, operator bool, valueOr) are functions on the value; the members
 * that assign the flag and the slot (copy construction, operator=,
 * valueOrAssign) are methods of OptionCell, a mutable holder of one Option.
 */
module Optional {

  /** None is an Option whose presence flag is false; Some(v) holds v. */
  datatype Option<T> = None | Some(value: T) {

    /** hasValue(): whether a value is present. */
    predicate HasValue()
    {
      Some?
    }

    /** operator bool(): the same answer as hasValue(). */
    function ToBool(): (b: bool)
      ensures b == HasValue()
      ensures b <==> this != None
    {
      HasValue()
    }

    /** valueOr(ifNone): the held value when present, otherwise ifNone. */
    function ValueOr(ifNone: T): T
    {
      if HasValue() then value else ifNone
    }
  }

  /**
   * Two Options are the same exactly when no use of hasValue() and valueOr()
   * can tell them apart. This is what makes a copy (copy constructor or
   * operator=) indistinguishable from its source.
   */
  lemma ObservationalEquality<T>(a: Option<T>, b: Option<T>)
    ensures a == b <==>
              a.HasValue() == b.HasValue() && forall f: T :: a.ValueOr(f) == b.ValueOr(f)
  {
    if a.HasValue() == b.HasValue() && forall f: T :: a.ValueOr(f) == b.ValueOr(f) {
      if a.HasValue() {
        assert a.ValueOr(a.value) == b.ValueOr(a.value);
      }
    }
  }

  /**
   * valueOr on a present Option returns the held value whatever the
   * fallback; on an empty one it returns the fallback.
   */
  lemma ValueOrFallback<T>(o: Option<T>, f: T, g: T)
    ensures o.HasValue() ==> o.ValueOr(f) == o.ValueOr(g) == o.value
    ensures !o.HasValue() ==> o.ValueOr(f) == f && o.ValueOr(g) == g
    ensures Some(f).ValueOr(g) == f && None.ValueOr(g) == g
  {
  }

  /** An object holding one Option, for the members that assign it in place. */
  class OptionCell<T> {
    var state: Option<T>

    /** Option(): no value. */
    constructor Empty()
      ensures !state.HasValue()
    {
      state := None;
    }

    /** Option(value): holds value. */
    constructor Of(v: T)
      ensures state.HasValue() && state.value == v
    {
      state := Some(v);
    }

    /** The copy constructor: same presence, and the same value when present. */
    constructor Copy(other: OptionCell<T>)
      ensures state.HasValue() == other.state.HasValue()
      ensures state.HasValue() ==> state.value == other.state.value
    {
      if other.state.HasValue() {
        state := Some(other.state.value);
      } else {
        state := None;
      }
    }

    /**
     * operator=: afterwards this cell has other's presence and, when present,
     * other's value; the result is this cell itself.
     */
    method Assign(other: OptionCell<T>) returns (self: OptionCell<T>)
      modifies this
      ensures self == this
      ensures state.HasValue() == old(other.state.HasValue())
      ensures state.HasValue() ==> state.value == old(other.state.value)
    {
      if other.state.HasValue() {
        state := Some(other.state.value);
      } else {
        state := None;
      }
      self := this;
    }

    /**
     * valueOrAssign(ifNone): an empty cell is assigned ifNone (through a
     * temporary Option and operator=); then the held value is returned.
     * A cell that already holds a value is left unchanged.
     */
    method ValueOrAssign(ifNone: T) returns (r: T)
      modifies this
      ensures state.HasValue() && state.value == r
      ensures r == old(state).ValueOr(ifNone)
      ensures old(state.HasValue()) ==> state == old(state)
      ensures !old(state.HasValue()) ==> r == ifNone
    {
      if !state.HasValue() {
        var temporary := new OptionCell.Of(ifNone);
        var _ := Assign(temporary);
      }
      r := state.value;
    }
  }
}
