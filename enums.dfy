/**
 * Enumerations shared by both generations of the solver's types.
 * The perk catalogue's names are a derived enum whose parsing and display
 * are foreign code; only their identity matters to the solver, so a perk
 * name is either the distinguished `Empty` or an opaque named perk.
 */
module Enums {
  datatype PerkName = Empty | Named(id: string)

  datatype GizmoType = Weapon | Armour | Tool

  datatype SortType = Gizmo | Attempt | Price
}
