/**
 The snapshot store: an abstract key-to-record map standing in for the
 browser's local storage. The whole state is written under one key after
 every change, read once at startup, and the key is removed on reset.
 */
module Snapshot {
  import opened Flow

  /** The storage key the state is kept under. */
  const StateKey: string := "valentinesState"

  /** The stored record, with the field names the serialised form uses. */
  datatype Record = Record(step: int, date: string, restaurant: string, custom: string)

  type Store = map<string, Record>

  function ToRecord(s: State): (r: Record)
    ensures r.step == s.step && r.date == s.dateChoice
    ensures r.restaurant == s.restaurantChoice && r.custom == s.customPlace
  {
    Record(s.step, s.dateChoice, s.restaurantChoice, s.customPlace)
  }

  /** Restores the four fields from a stored record; the inverse of `ToRecord`. */
  function FromRecord(rec: Record): (s: State)
    ensures ToRecord(s) == rec
  {
    State(rec.step, rec.date, rec.restaurant, rec.custom)
  }

  /** Writes the full state under the state key; every other key is kept. */
  function Save(store: Store, s: State): (r: Store)
    ensures r.Keys == store.Keys + {StateKey}
    ensures r[StateKey] == ToRecord(s)
    ensures forall k :: k in store && k != StateKey ==> r[k] == store[k]
  {
    store[StateKey := ToRecord(s)]
  }

  /** The state at startup: the stored snapshot when there is one, the
      initial state otherwise. */
  function Load(store: Store): (s: State)
    ensures StateKey !in store ==> s == Initial
    ensures StateKey in store ==> ToRecord(s) == store[StateKey]
  {
    if StateKey in store then FromRecord(store[StateKey]) else Initial
  }

  /** Removes the stored snapshot; every other key is kept. */
  function Erase(store: Store): (r: Store)
    ensures StateKey !in r
    ensures r.Keys == store.Keys - {StateKey}
    ensures forall k :: k in store && k != StateKey ==> k in r && r[k] == store[k]
  {
    store - {StateKey}
  }

  /** Saving and then loading gives back the identical state. */
  lemma SaveLoadRoundTrip(store: Store, s: State)
    ensures Load(Save(store, s)) == s
  {
  }

  /** Reading a record back into a state and writing it again gives the same record. */
  lemma RecordRoundTrip(r: Record)
    ensures ToRecord(FromRecord(r)) == r
  {
  }

  /** After a reset the next startup sees the initial state, whether the
      snapshot is left erased or the initial state is written back. */
  lemma ResetReloadsInitial(store: Store, s: State)
    ensures Load(Erase(store)) == Initial
    ensures Load(Save(Erase(store), Reset(s))) == Initial
  {
  }

  /** A session: the live state and the store it is mirrored into. */
  datatype Session = Session(state: State, store: Store)

  /** The store holds the live state. */
  predicate Synced(sess: Session) {
    Load(sess.store) == sess.state
  }

  /** One gesture followed by its persistence. A reset first erases the
      snapshot; then the save effect writes the new state, but only when the
      gesture changed some field. */
  function Handle(sess: Session, e: Event): (r: Session)
    ensures r.state == Apply(sess.state, e)
    ensures r.state != sess.state ==> StateKey in r.store && r.store[StateKey] == ToRecord(r.state)
    ensures e.ResetAll? && sess.state == Initial ==> StateKey !in r.store
    ensures !e.ResetAll? && r.state == sess.state ==> r.store == sess.store
    ensures forall k :: k in sess.store && k != StateKey ==> k in r.store && r.store[k] == sess.store[k]
    ensures r.store.Keys <= sess.store.Keys + {StateKey}
  {
    var next := Apply(sess.state, e);
    var erased := if e.ResetAll? then Erase(sess.store) else sess.store;
    Session(next, if next != sess.state then Save(erased, next) else erased)
  }

  /** A reset from a summary screen leaves the default record stored. */
  lemma ResetStoresDefaults(sess: Session)
    requires sess.state.step == 4
    ensures StateKey in Handle(sess, ResetAll).store
    ensures Handle(sess, ResetAll).store[StateKey] == Record(0, "", "", "")
  {
  }

  /** After a reset the next startup sees the initial state, whatever the
      store held; after any other gesture from a synced session, the next
      startup sees the live state. */
  lemma ReloadAfterHandle(sess: Session, e: Event)
    ensures e.ResetAll? ==> Load(Handle(sess, e).store) == Initial
    ensures Synced(sess) ==> Synced(Handle(sess, e))
  {
  }
}
