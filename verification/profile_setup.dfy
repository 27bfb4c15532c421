/** The profile set-up form: hobby list editing, the submit gate and the defaults applied
    to a fetched profile. The database is replaced by the rows it would return. */
module ProfileSetup {
  import opened Options
  import opened Seqs
  import opened Text

  /** The form's `profile` state. */
  datatype Form = Form(name: string, branch: string, year: int, bio: string,
                       hobbies: seq<string>, pictureUrl: string)

  /** The form plus the hobby text box. */
  datatype Editor = Editor(profile: Form, hobbyInput: string)

  /** A `profiles` row; a column may be null. */
  datatype Row = Row(id: string, name: Option<string>, branch: Option<string>, year: Option<int>,
                     bio: Option<string>, hobbies: Option<seq<string>>, pictureUrl: Option<string>)

  /** What pressing Save does. */
  datatype Submit = Ignored | MissingFields | Upsert(row: Row)

  /** The initial state of the form. */
  function Blank(): (e: Editor)
    ensures e.profile.hobbies == [] && e.profile.year == 1 && e.hobbyInput == []
    ensures e.profile.name == [] && e.profile.branch == [] && e.profile.bio == [] && e.profile.pictureUrl == []
  {
    Editor(Form("", "", 1, "", [], ""), "")
  }

  /** `addHobby`: the trimmed input is appended and the box cleared exactly when it is
      non-empty and not listed yet; otherwise nothing changes. */
  function AddHobby(e: Editor): (r: Editor)
    ensures var t := Trim(e.hobbyInput);
      if t != [] && t !in e.profile.hobbies
      then r == Editor(e.profile.(hobbies := e.profile.hobbies + [t]), "")
      else r == e
  {
    var t := Trim(e.hobbyInput);
    if t != [] && t !in e.profile.hobbies then Editor(e.profile.(hobbies := e.profile.hobbies + [t]), "") else e
  }

  /** `addHobby` never introduces a duplicate, and every listed hobby is trimmed and non-empty
      when it was before. */
  lemma AddHobbyKeepsDistinct(e: Editor)
    requires Distinct(e.profile.hobbies)
    ensures Distinct(AddHobby(e).profile.hobbies)
    ensures (forall h :: h in e.profile.hobbies ==> h != [] && Trim(h) == h) ==>
              forall h :: h in AddHobby(e).profile.hobbies ==> h != [] && Trim(h) == h
  {
    TrimIdempotent(e.hobbyInput);
  }

  /** Pressing Add twice adds at most once: the first press clears the box or changes nothing. */
  lemma AddHobbyIdempotent(e: Editor)
    ensures AddHobby(AddHobby(e)) == AddHobby(e)
  {
  }

  /** `removeHobby(h)`: every occurrence of `h` goes, the rest stay in order, and the other
      fields and the text box are untouched. */
  function RemoveHobby(e: Editor, h: string): (r: Editor)
    ensures h !in r.profile.hobbies
    ensures forall x :: x != h ==> (x in r.profile.hobbies <==> x in e.profile.hobbies)
    ensures forall x :: x != h ==> multiset(r.profile.hobbies)[x] == multiset(e.profile.hobbies)[x]
    ensures r.profile.(hobbies := e.profile.hobbies) == e.profile && r.hobbyInput == e.hobbyInput
  {
    var kept := Filter(e.profile.hobbies, x => x != h);
    assert forall x :: x != h && x in e.profile.hobbies ==> x in kept by {
      forall x | x != h && x in e.profile.hobbies ensures x in kept {
        var i :| 0 <= i < |e.profile.hobbies| && e.profile.hobbies[i] == x;
      }
    }
    forall x | x != h ensures multiset(kept)[x] == multiset(e.profile.hobbies)[x] {
      FilterMultiplicity(e.profile.hobbies, x => x != h, x);
    }
    e.(profile := e.profile.(hobbies := kept))
  }

  /** The remaining hobbies keep their relative order. */
  lemma RemoveHobbyKeepsOrder(e: Editor, h: string)
    ensures IsSubsequence(RemoveHobby(e, h).profile.hobbies, e.profile.hobbies)
    ensures Distinct(e.profile.hobbies) ==> Distinct(RemoveHobby(e, h).profile.hobbies)
  {
    FilterIsSubsequence(e.profile.hobbies, x => x != h);
    if Distinct(e.profile.hobbies) {
      FilterDistinct(e.profile.hobbies, x => x != h);
    }
  }

  /** Removing the hobby just added restores the list it was added to. */
  lemma RemoveUndoesAdd(e: Editor)
    requires Trim(e.hobbyInput) != [] && Trim(e.hobbyInput) !in e.profile.hobbies
    ensures RemoveHobby(AddHobby(e), Trim(e.hobbyInput)).profile == e.profile
  {
    var t := Trim(e.hobbyInput);
    var hs := e.profile.hobbies;
    FilterConcat(hs, [t], x => x != t);
    FilterKeepsAll(hs, x => x != t);
    assert hs + [] == hs;
  }

  /** `handleSubmit`'s gate: without a user nothing happens; with an empty name or branch
      or a falsy year an error is shown and nothing is written; otherwise the form is
      upserted as the user's row. */
  function HandleSubmit(f: Form, user: Option<string>): (r: Submit)
    ensures user.None? ==> r == Ignored
    ensures r.MissingFields? <==> user.Some? && (f.name == [] || f.branch == [] || f.year == 0)
    ensures r.Upsert? <==> user.Some? && f.name != [] && f.branch != [] && f.year != 0
    ensures r.Upsert? ==> r.row.id == user.value
  {
    match user
    case None => Ignored
    case Some(id) =>
      if f.name == [] || f.branch == [] || f.year == 0 then MissingFields
      else Upsert(Row(id, Some(f.name), Some(f.branch), Some(f.year), Some(f.bio), Some(f.hobbies), Some(f.pictureUrl)))
  }

  /** `fetchProfile`: a found row replaces the form, each present column copied and a
      missing one taking its default ('' for text, 1 for a null or zero year, [] for
      hobbies); no row leaves the form as it was. */
  function FetchProfile(f: Form, data: Option<Row>): (r: Form)
    ensures data.None? ==> r == f
    ensures data.Some? ==> var d := data.value;
      && (d.name.None? ==> r.name == []) && (d.branch.None? ==> r.branch == [])
      && (d.bio.None? ==> r.bio == []) && (d.pictureUrl.None? ==> r.pictureUrl == [])
      && (d.hobbies.None? ==> r.hobbies == [])
      && (d.year.None? || d.year == Some(0) ==> r.year == 1)
      && r.year != 0
      && (d.name.Some? ==> r.name == d.name.value) && (d.branch.Some? ==> r.branch == d.branch.value)
      && (d.bio.Some? ==> r.bio == d.bio.value) && (d.pictureUrl.Some? ==> r.pictureUrl == d.pictureUrl.value)
      && (d.hobbies.Some? ==> r.hobbies == d.hobbies.value)
      && (d.year.Some? && d.year.value != 0 ==> r.year == d.year.value)
  {
    match data
    case None => f
    case Some(d) =>
      Form(d.name.GetOr(""), d.branch.GetOr(""), if d.year.None? || d.year.value == 0 then 1 else d.year.value,
           d.bio.GetOr(""), d.hobbies.GetOr([]), d.pictureUrl.GetOr(""))
  }

  /** What Save writes, read back by `fetchProfile`, is the form that was saved. */
  lemma SubmitThenFetch(f: Form, user: Option<string>, before: Form)
    requires HandleSubmit(f, user).Upsert?
    ensures FetchProfile(before, Some(HandleSubmit(f, user).row)) == f
  {
  }
}
