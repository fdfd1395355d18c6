/** The soft-delete fields every entity inherits from `BaseEntity`. Inheritance becomes
    composition: each entity class holds its `BaseEntity` in a constant field `base`. */
module BaseEntities {
  import opened Common
  import opened Time

  /** The three deletion fields, as one value. */
  datatype Deletion = Deletion(isDeleted: bool, deletedDate: Option<LocalDateTime>, deletedBy: Option<string>)

  /** The state of an entity that was never deleted (or was restored). */
  const NeverDeleted: Deletion := Deletion(false, None, None)

  /** The state `softDelete(by)` leaves at time `now`, whatever the state before. */
  function SoftDeleted(actor: Option<string>, now: LocalDateTime): (r: Deletion)
    ensures r.isDeleted && r != NeverDeleted
  {
    Deletion(true, Some(now), actor)
  }

  class BaseEntity {
    /** The generated primary key; it never changes once assigned. */
    const id: nat
    var isDeleted: bool
    var deletedDate: Option<LocalDateTime>
    var deletedBy: Option<string>

    function State(): Deletion
      reads this
    {
      Deletion(isDeleted, deletedDate, deletedBy)
    }

    /** A new entity starts not deleted. */
    constructor (id: nat)
      ensures this.id == id && State() == NeverDeleted
    {
      this.id := id;
      isDeleted := false;
      deletedDate := None;
      deletedBy := None;
    }

    /** `isActive()`: the entity has not been soft-deleted. */
    predicate IsActive()
      reads this
      ensures IsActive() <==> State().isDeleted == false
    {
      !isDeleted
    }

    /** Marks the entity deleted, stamping when and by whom; a repeated call re-stamps. */
    method SoftDelete(actor: Option<string>, now: LocalDateTime)
      modifies this
      ensures State() == SoftDeleted(actor, now)
      ensures !IsActive()
    {
      isDeleted := true;
      deletedDate := Some(now);
      deletedBy := actor;
    }

    /** Clears the deletion mark and its stamps. */
    method Restore()
      modifies this
      ensures State() == NeverDeleted
      ensures IsActive()
    {
      isDeleted := false;
      deletedDate := None;
      deletedBy := None;
    }
  }
}
