/**
 * The horse repository: the horses keyed by id and the horse-trainer link
 * table, with the operations that replace, read and drop links.
 */
module EquestrianRepository {
  import opened Wrappers
  import opened PyValues
  import Queries

  datatype Horse = Horse(name: string, jaType: Member, isArchived: bool)

  type Store = map<int, Horse>

  /** One row of the horse-trainer link table. */
  datatype HorseTrainer = HorseTrainer(idHorse: int, idEmployee: int)

  /** The employees linked to horse `h`, in link-table order (with repetitions). */
  function TrainersOf(links: seq<HorseTrainer>, h: int): (r: seq<int>)
    ensures |r| <= |links|
    ensures forall e :: e in r <==> HorseTrainer(h, e) in links
  {
    if links == [] then []
    else
      var rest := TrainersOf(links[1..], h);
      assert forall l :: l in links <==> l == links[0] || l in links[1..];
      if links[0].idHorse == h then [links[0].idEmployee] + rest else rest
  }

  lemma {:induction false} TrainersOfAppend(a: seq<HorseTrainer>, b: seq<HorseTrainer>, h: int)
    ensures TrainersOf(a + b, h) == TrainersOf(a, h) + TrainersOf(b, h)
  {
    if a == [] {
      assert a + b == b;
    } else {
      assert (a + b)[1..] == a[1..] + b;
      TrainersOfAppend(a[1..], b, h);
    }
  }

  /** The link rows of every horse but `h` (the bulk delete of `h`'s links). */
  function DropHorse(links: seq<HorseTrainer>, h: int): (r: seq<HorseTrainer>)
    ensures forall l :: l in r <==> l in links && l.idHorse != h
  {
    if links == [] then []
    else
      var rest := DropHorse(links[1..], h);
      assert forall l :: l in links <==> l == links[0] || l in links[1..];
      if links[0].idHorse == h then rest else [links[0]] + rest
  }

  /** Dropping `h`'s links leaves no link for `h` and every other horse's links as they were, in order. */
  lemma {:induction false} DropHorseTrainers(links: seq<HorseTrainer>, h: int, other: int)
    ensures TrainersOf(DropHorse(links, h), h) == []
    ensures other != h ==> TrainersOf(DropHorse(links, h), other) == TrainersOf(links, other)
  {
    if links != [] {
      DropHorseTrainers(links[1..], h, other);
    }
  }

  /** One new link per trainer id, in the order given. */
  function NewLinks(h: int, trainerIds: seq<int>): (r: seq<HorseTrainer>)
    ensures |r| == |trainerIds|
    ensures forall i :: 0 <= i < |r| ==> r[i] == HorseTrainer(h, trainerIds[i])
  {
    seq(|trainerIds|, i requires 0 <= i < |trainerIds| => HorseTrainer(h, trainerIds[i]))
  }

  lemma {:induction false} NewLinksTrainers(h: int, trainerIds: seq<int>, other: int)
    ensures TrainersOf(NewLinks(h, trainerIds), h) == trainerIds
    ensures other != h ==> TrainersOf(NewLinks(h, trainerIds), other) == []
  {
    if trainerIds != [] {
      assert NewLinks(h, trainerIds)[1..] == NewLinks(h, trainerIds[1..]);
      NewLinksTrainers(h, trainerIds[1..], other);
    }
  }

  /**
   * `set_horse_trainers(h, ids)`: the links of `h` are deleted, then one link
   * per element of `ids` is added.
   */
  function SetHorseTrainers(links: seq<HorseTrainer>, h: int, trainerIds: seq<int>): (r: seq<HorseTrainer>)
    ensures TrainersOf(r, h) == trainerIds
    ensures forall other :: other != h ==> TrainersOf(r, other) == TrainersOf(links, other)
  {
    var r := DropHorse(links, h) + NewLinks(h, trainerIds);
    TrainersOfAppend(DropHorse(links, h), NewLinks(h, trainerIds), h);
    DropHorseTrainers(links, h, h);
    NewLinksTrainers(h, trainerIds, h);
    forall other | other != h ensures TrainersOf(r, other) == TrainersOf(links, other) {
      TrainersOfAppend(DropHorse(links, h), NewLinks(h, trainerIds), other);
      DropHorseTrainers(links, h, other);
      NewLinksTrainers(h, trainerIds, other);
    }
    r
  }

  /** Setting the same trainers twice gives the same trainers as setting them once. */
  lemma SetHorseTrainersIdempotent(links: seq<HorseTrainer>, h: int, trainerIds: seq<int>, any: int)
    ensures var once := SetHorseTrainers(links, h, trainerIds);
      TrainersOf(SetHorseTrainers(once, h, trainerIds), any) == TrainersOf(once, any)
  {
  }

  /** The employee ids linked to `h`, as the values the `IN` condition compares against. */
  function TrainerIdValues(links: seq<HorseTrainer>, h: int): (r: set<Value>)
    ensures forall v :: v in r <==> v.Int? && HorseTrainer(h, v.i) in links
  {
    set e | e in TrainersOf(links, h) :: Int(e)
  }

  /** `get_trainers_of_horse(h)`: the employee rows whose id appears in a link of `h`. */
  function GetTrainersOfHorse(employees: seq<Queries.Row>, links: seq<HorseTrainer>, h: int): (r: seq<Queries.Row>)
    ensures forall x :: x in r <==> x in employees && Attr(x, "id").Int? && HorseTrainer(h, Attr(x, "id").i) in links
  {
    Queries.Keep(employees, Queries.OneOf("id", TrainerIdValues(links, h)))
  }

  /** After `set_horse_trainers(h, ids)` the trainers read back are exactly the employees with those ids. */
  lemma TrainersReadBack(employees: seq<Queries.Row>, links: seq<HorseTrainer>, h: int, trainerIds: seq<int>)
    ensures forall x :: x in GetTrainersOfHorse(employees, SetHorseTrainers(links, h, trainerIds), h) <==>
      x in employees && Attr(x, "id").Int? && Attr(x, "id").i in trainerIds
  {
    var after := SetHorseTrainers(links, h, trainerIds);
    forall e ensures HorseTrainer(h, e) in after <==> e in trainerIds {
      assert e in TrainersOf(after, h) <==> HorseTrainer(h, e) in after;
    }
  }

  /** `get_by_id`: the horse, or `None`. */
  function GetById(s: Store, id: int): (r: Option<Horse>)
    ensures r.Some? <==> id in s
    ensures r.Some? ==> r.value == s[id]
  {
    if id in s then Some(s[id]) else None
  }

  /**
   * `delete(id)`: the guard tests a query object, which is always truthy, so
   * the call reports success whether or not the horse exists. The database
   * cascades the deletion to the horse's trainer links.
   */
  function Delete(s: Store, links: seq<HorseTrainer>, id: int): (r: (bool, Store, seq<HorseTrainer>))
    ensures r.0
    ensures r.1.Keys == s.Keys - {id} && forall k :: k in r.1 ==> r.1[k] == s[k]
    ensures TrainersOf(r.2, id) == []
    ensures forall other :: other != id ==> TrainersOf(r.2, other) == TrainersOf(links, other)
  {
    DropHorseTrainers(links, id, id);
    forall other | other != id ensures TrainersOf(DropHorse(links, id), other) == TrainersOf(links, other) {
      DropHorseTrainers(links, id, other);
    }
    (true, s - {id}, DropHorse(links, id))
  }

  /** Deleting a horse that does not exist still reports success and changes no horse. */
  lemma DeleteMissingReportsSuccess(s: Store, links: seq<HorseTrainer>, id: int)
    requires id !in s
    ensures Delete(s, links, id).0 && Delete(s, links, id).1 == s
  {
    assert s - {id} == s;
  }
}
