/** What all the models share: ids, optional values, and a few facts about sets and products. */
module Basics {
  /** Row identifiers matter only up to equality, so a number stands for each. */
  type Id = int

  datatype Option<+T> = None | Some(value: T)

  function Max(a: int, b: int): int { if a > b then a else b }

  lemma HasMember(ids: set<Id>)
    requires ids != {}
    ensures exists j :: j in ids
  {
    NoMembers(ids);
  }

  lemma NoMembers(ids: set<Id>)
    ensures (forall j :: j !in ids) ==> ids == {}
  {
    if forall j :: j !in ids { assert ids == {}; }
  }

  lemma Multiples(w: int, a: int, b: int)
    requires w >= 0 && a <= b
    ensures a * w <= b * w
  {
  }
}
