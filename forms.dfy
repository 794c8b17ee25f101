/** Values the React forms hold in their select boxes. */
module Forms {

  /** A select's value: `''` when nothing is chosen, or an id. */
  datatype Choice = Empty | Picked(id: int)

  /** JavaScript truthiness of a select value: `''` and the id 0 are falsy. */
  predicate Truthy(c: Choice) { c.Picked? && c.id != 0 }
}
