/** Value types shared by every part of the model. */
module Common {

  /** A nullable value (`T?` in the source). */
  datatype Option<+T> = None | Some(value: T)

  /** Entity identifiers. The source uses GUIDs; here they are numbers handed out by the store. */
  type Id = nat

  /** `Guid.Empty`: the store never hands out this identifier. */
  const EmptyId: Id := 0

  /** UTC instants, as ticks of the injected clock. */
  type Time = nat
}
