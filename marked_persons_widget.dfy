/**
 * desktop/view/widget/marked_persons_widget.py: the registry of marked persons, a map
 * from name to the last Person seen under that name, and the widget's rows, one label
 * per added person, in the order they were added.
 *
 * Each row is modelled by the name its label shows; the Remove button, the spacer and
 * the Qt layout objects themselves are not modelled.
 */
module MarkedPersons {
  import opened Recognition

  /** The rows with the first row showing `name` taken out; the others keep their order. */
  function RemoveFirst(rows: seq<string>, name: string): seq<string>
  {
    if |rows| == 0 then []
    else if rows[0] == name then rows[1..]
    else [rows[0]] + RemoveFirst(rows[1..], name)
  }

  /** Removing the first occurrence takes exactly one copy of the name out of the rows
      (none when there is none). */
  lemma {:induction false} RemoveFirstMultiset(rows: seq<string>, name: string)
    ensures multiset(RemoveFirst(rows, name)) == multiset(rows) - multiset{name}
  {
    if |rows| > 0 {
      assert rows == [rows[0]] + rows[1..];
      if rows[0] != name {
        RemoveFirstMultiset(rows[1..], name);
      }
    }
  }

  /** Rows that do not show the name are left as they are. */
  lemma {:induction false} RemoveFirstAbsent(rows: seq<string>, name: string)
    requires name !in rows
    ensures RemoveFirst(rows, name) == rows
  {
    if |rows| > 0 {
      assert rows[0] in rows;
      assert forall n | n in rows[1..] :: n in rows;
      RemoveFirstAbsent(rows[1..], name);
      assert rows == [rows[0]] + rows[1..];
    }
  }

  /** When row `k` is the first showing the name, exactly row `k` is taken out. */
  lemma {:induction false} RemoveFirstAt(rows: seq<string>, name: string, k: nat)
    requires k < |rows| && rows[k] == name && name !in rows[..k]
    ensures RemoveFirst(rows, name) == rows[..k] + rows[k + 1..]
  {
    if k > 0 {
      assert rows[0] == rows[..k][0];
      assert rows[1..][..k - 1] == rows[1..k];
      assert forall n | n in rows[1..k] :: n in rows[..k];
      RemoveFirstAt(rows[1..], name, k - 1);
      assert rows[..k] == [rows[0]] + rows[1..][..k - 1];
    }
  }

  predicate DistinctNames(rows: seq<string>)
  {
    forall a, b | 0 <= a < b < |rows| :: rows[a] != rows[b]
  }

  /** With distinct rows, removing the first row of a name removes the name altogether. */
  lemma {:induction false} RemoveFirstDistinct(rows: seq<string>, name: string)
    requires DistinctNames(rows)
    ensures DistinctNames(RemoveFirst(rows, name))
    ensures forall n :: n in RemoveFirst(rows, name) <==> n in rows && n != name
  {
    if |rows| > 0 {
      assert forall b | 0 < b < |rows| :: rows[0] != rows[b];
      assert DistinctNames(rows[1..]) by {
        forall a, b | 0 <= a < b < |rows[1..]| ensures rows[1..][a] != rows[1..][b] {
          assert rows[1..][a] == rows[a + 1] && rows[1..][b] == rows[b + 1];
        }
      }
      RemoveFirstDistinct(rows[1..], name);
      if rows[0] == name {
        forall n ensures n in rows[1..] ==> n != name {
          if n in rows[1..] {
            var b :| 0 <= b < |rows[1..]| && rows[1..][b] == n;
            assert rows[b + 1] == n;
          }
        }
      } else {
        var rest := RemoveFirst(rows[1..], name);
        assert rows[0] !in rows[1..];
        assert rows == [rows[0]] + rows[1..];
        forall a, b | 0 <= a < b < |[rows[0]] + rest| ensures ([rows[0]] + rest)[a] != ([rows[0]] + rest)[b] {
          if a == 0 {
            assert ([rows[0]] + rest)[b] == rest[b - 1];
            assert rest[b - 1] in rest;
          } else {
            assert ([rows[0]] + rest)[a] == rest[a - 1] && ([rows[0]] + rest)[b] == rest[b - 1];
          }
        }
      }
    }
  }

  /** Every marked name has exactly one row and every row a marked name, and each
      person is filed under its own name. */
  ghost predicate ConsistentState(marked: map<string, Person>, rows: seq<string>)
  {
    DistinctNames(rows) &&
    (forall n :: n in marked <==> n in rows) &&
    (forall n | n in marked :: marked[n].name == n)
  }

  class MarkedPersonsWidget {
    var markedPersons: map<string, Person>
    var rows: seq<string>

    /** The widget keeps ConsistentState as long as persons are added through
        UpdatePerson (AddPerson of a name already marked adds a second row). */
    ghost predicate Consistent()
      reads this
    {
      ConsistentState(markedPersons, rows)
    }

    /** `MarkedPersonsWidget()`: nobody is marked. */
    constructor()
      ensures markedPersons == map[] && rows == [] && Consistent()
    {
      markedPersons := map[];
      rows := [];
    }

    /** `name in widget`. */
    predicate Contains(name: string)
      reads this
    {
      name in markedPersons
    }

    /** `add_person`: file the person under its name, replacing any entry of that name,
        and append a row showing the name. */
    method AddPerson(person: Person)
      modifies this
      ensures markedPersons == old(markedPersons)[person.name := person]
      ensures rows == old(rows) + [person.name]
      ensures Contains(person.name)
      ensures old(Consistent()) && !old(Contains(person.name)) ==> Consistent()
    {
      markedPersons := markedPersons[person.name := person];
      rows := rows + [person.name];
      if old(Consistent()) && !old(Contains(person.name)) {
        forall a, b | 0 <= a < b < |rows| ensures rows[a] != rows[b] {
          if b == |rows| - 1 {
            assert rows[a] in old(rows);
          }
        }
      }
    }

    /** `remove_person`: forget the name, if it is marked, and take out the first row
        showing it; other entries and rows stay, in order. */
    method RemovePerson(name: string)
      modifies this
      ensures markedPersons == old(markedPersons) - {name}
      ensures rows == RemoveFirst(old(rows), name)
      ensures !Contains(name)
      ensures old(Consistent()) ==> Consistent()
    {
      markedPersons := markedPersons - {name};
      var i := 0;
      while i < |rows|
        invariant 0 <= i <= |rows| && rows == old(rows)
        invariant name !in rows[..i]
      {
        if rows[i] == name {
          RemoveFirstAt(rows, name, i);
          rows := rows[..i] + rows[i + 1..];
          break;
        }
        i := i + 1;
      }
      if i == |old(rows)| {
        assert rows[..i] == rows;
        RemoveFirstAbsent(rows, name);
      }
      if old(Consistent()) {
        RemoveFirstDistinct(old(rows), name);
      }
    }

    /** `update_person`: a marked name gets its entry replaced and keeps its row; any
        other person is added. */
    method UpdatePerson(person: Person)
      modifies this
      ensures markedPersons == old(markedPersons)[person.name := person]
      ensures old(Contains(person.name)) ==> rows == old(rows)
      ensures !old(Contains(person.name)) ==> rows == old(rows) + [person.name]
      ensures old(Consistent()) ==> Consistent()
    {
      if person.name in markedPersons {
        markedPersons := markedPersons[person.name := person];
      } else {
        AddPerson(person);
      }
    }
  }
}
