/**
 * The branches page of the admin panel: its search box and the submission of the
 * add/edit form.
 */
module AdminBranches {
  import opened Wrappers
  import opened Text
  import opened Lists
  import opened Records
  import opened Search
  import opened ApiClient

  /** A branch as the page holds it: any field may be missing from the object. */
  datatype BranchItem = BranchItem(
    id: int, name: Option<string>, address: Option<string>, phone: Option<string>, coordinates: Option<string>)

  /** Name, address and phone are searched; coordinates are not. */
  function SearchedFields(b: BranchItem): seq<string> {
    [Lower(OrEmpty(b.name)), Lower(OrEmpty(b.address)), Lower(OrEmpty(b.phone))]
  }

  /**
   * `searchBranches`: an empty trimmed term shows every branch; otherwise a branch is
   * kept iff every term is in its lower-cased name, address or phone, in list order.
   */
  function SearchBranches(input: string, branches: seq<BranchItem>): (r: seq<BranchItem>)
    ensures Normalize(input) == "" ==> r == branches
    ensures Normalize(input) != "" ==> forall b :: b in r <==>
      b in branches
      && EveryTermIn(SplitOnSpaces(Normalize(input)), [Lower(OrEmpty(b.name)), Lower(OrEmpty(b.address)), Lower(OrEmpty(b.phone))])
    ensures IsSubsequence(r, branches)
  {
    Select(Normalize(input), branches, SearchedFields)
  }

  /** Whether a branch is found never depends on its coordinates. */
  lemma CoordinatesAreNotSearched(input: string, branches: seq<BranchItem>, b: BranchItem, c: Option<string>)
    requires b in branches && b.(coordinates := c) in branches
    ensures b in SearchBranches(input, branches) <==> b.(coordinates := c) in SearchBranches(input, branches)
  {
    assert SearchedFields(b) == SearchedFields(b.(coordinates := c));
  }

  /** A term found only in the coordinates does not select the branch. */
  lemma CoordinatesOnlyMatchIsDropped(input: string, branches: seq<BranchItem>, b: BranchItem)
    requires Normalize(input) != "" && b in branches
    requires !EveryTermIn(SplitOnSpaces(Normalize(input)), SearchedFields(b))
    ensures b !in SearchBranches(input, branches)
  {
  }

  // ---------------------------------------------------------------------------
  // The form
  // ---------------------------------------------------------------------------

  /** The raw values of the form's inputs. */
  datatype BranchForm = BranchForm(id: string, name: string, address: string, phone: string, coordinates: string)

  datatype BranchSubmission =
    | Rejected
    | Add(fields: BranchFields)
    | Change(id: Option<int>, fields: BranchFields)

  /**
   * `handleBranchFormSubmit`: every field but the id is trimmed; rejected when the
   * trimmed name, address or phone is empty (empty coordinates are allowed); otherwise an
   * update keyed by `parseInt(id)` when the untrimmed id is not empty, an add when it is.
   */
  function SubmitBranchForm(form: BranchForm): (s: BranchSubmission)
    ensures s.Rejected? <==> Trim(form.name) == "" || Trim(form.address) == "" || Trim(form.phone) == ""
    ensures s.Change? <==> !s.Rejected? && form.id != ""
    ensures s.Change? ==> s.id == ParseInt(form.id)
    ensures !s.Rejected? ==>
      s.fields == BranchFields(Trim(form.name), Trim(form.address), Trim(form.phone), Trim(form.coordinates))
  {
    var name, address, phone, coordinates := Trim(form.name), Trim(form.address), Trim(form.phone), Trim(form.coordinates);
    if name == "" || address == "" || phone == "" then Rejected
    else
      var fields := BranchFields(name, address, phone, coordinates);
      if form.id != "" then Change(ParseInt(form.id), fields) else Add(fields)
  }

  /**
   * What is submitted is each input with its surrounding white space cut off, and no
   * field starts or ends with white space.
   */
  lemma SubmittedFieldsAreTrimmed(form: BranchForm)
    requires !SubmitBranchForm(form).Rejected?
    ensures var f := SubmitBranchForm(form).fields;
      && (exists i: nat :: WithinSpaces(form.name, i, f.name))
      && (exists i: nat :: WithinSpaces(form.address, i, f.address))
      && (exists i: nat :: WithinSpaces(form.phone, i, f.phone))
      && (exists i: nat :: WithinSpaces(form.coordinates, i, f.coordinates))
    ensures var f := SubmitBranchForm(form).fields;
      && f.name != "" && !IsSpace(f.name[0]) && !IsSpace(f.name[|f.name| - 1])
      && f.address != "" && f.phone != ""
      && (f.coordinates == "" || (!IsSpace(f.coordinates[0]) && !IsSpace(f.coordinates[|f.coordinates| - 1])))
  {
  }

  /** Submitting what was submitted, with the same id, gives the same submission. */
  lemma ResubmittingChangesNothing(form: BranchForm)
    requires !SubmitBranchForm(form).Rejected?
    ensures var f := SubmitBranchForm(form).fields;
      SubmitBranchForm(BranchForm(form.id, f.name, f.address, f.phone, f.coordinates)) == SubmitBranchForm(form)
  {
    TrimIdempotent(form.name);
    TrimIdempotent(form.address);
    TrimIdempotent(form.phone);
    TrimIdempotent(form.coordinates);
  }

  /** A field of spaces only is as empty as a blank one. */
  lemma BlankNameIsRejected(form: BranchForm)
    requires forall k :: 0 <= k < |form.name| ==> form.name[k] == ' '
    ensures SubmitBranchForm(form).Rejected?
  {
    BlankTrimsToEmpty(form.name);
  }

  lemma BlankTrimsToEmpty(s: string)
    requires forall k :: 0 <= k < |s| ==> s[k] == ' '
    ensures Trim(s) == ""
  {
  }

  lemma SpaceIsNaN()
    ensures ParseInt(" ") == None
  {
    assert IsSpace(" "[0]);
    assert TrimStart(" ") == "";
  }

  /**
   * The id is not trimmed: an id of one space still selects an update, `parseInt` gives
   * NaN, and the request goes to `/api/branches/NaN`, which has no handler.
   */
  lemma SpaceIdUpdatesNothing(form: BranchForm)
    requires form.id == " " && !SubmitBranchForm(form).Rejected?
    ensures SubmitBranchForm(form).Change? && SubmitBranchForm(form).id == None
    ensures Router.Dispatch("PUT", BranchPath(SubmitBranchForm(form).id)) == Router.ApiNotFound
  {
    SpaceIsNaN();
    UpdatePathRoutes(None);
  }
}
