/** The derived values of services/frontend/src/routes/Storage.tsx: the object
    list narrowed by the selected bucket and the search box, the bucket
    selection toggle, the summary counts and the empty-list message. */
module Storage {
  import opened Wrappers
  import Seqs
  import Text
  import Web

  datatype Access = Public | Private

  /** A bucket; `size` is a floating-point byte count and is not modelled. */
  datatype Bucket = Bucket(id: string, name: string, objects: nat, lastModified: string, access: Access, tags: seq<string>)

  /** A stored object; `size` is not modelled, as for buckets. */
  datatype StorageObject = StorageObject(id: string, name: string, bucket: string, kind: string, lastModified: string, path: string)

  /** The first filter: no (truthy) selection, or the object's bucket is the
      selected one. */
  predicate InSelection(selected: Option<string>, obj: StorageObject) {
    !Web.Truthy(selected) || obj.bucket == selected.value
  }

  /** The second filter: an empty query, or the lower-cased name contains the
      lower-cased query. */
  predicate MatchesQuery(query: string, obj: StorageObject) {
    query == "" || Text.Contains(Text.Lower(obj.name), Text.Lower(query))
  }

  predicate Kept(selected: Option<string>, query: string, obj: StorageObject) {
    InSelection(selected, obj) && MatchesQuery(query, obj)
  }

  /** `filteredObjects`: the two filters applied in order. */
  function FilteredObjects(objects: seq<StorageObject>, selected: Option<string>, query: string): seq<StorageObject> {
    Seqs.Filter(Seqs.Filter(objects, o => InSelection(selected, o)), o => MatchesQuery(query, o))
  }

  /** An object is shown exactly when it is stored and passes both filters. */
  lemma FilteredMembership(objects: seq<StorageObject>, selected: Option<string>, query: string, obj: StorageObject)
    ensures obj in FilteredObjects(objects, selected, query) <==> obj in objects && Kept(selected, query, obj)
  {
    var first := Seqs.Filter(objects, o => InSelection(selected, o));
    var r := FilteredObjects(objects, selected, query);
    if obj in r {
      var i :| 0 <= i < |r| && r[i] == obj;
      var j :| 0 <= j < |first| && first[j] == obj;
    }
    if obj in objects && Kept(selected, query, obj) {
      var i :| 0 <= i < |objects| && objects[i] == obj;
      var j :| 0 <= j < |first| && first[j] == obj;
    }
  }

  /** The shown objects keep the stored order. */
  lemma FilteredIsSubsequence(objects: seq<StorageObject>, selected: Option<string>, query: string)
    ensures Seqs.IsSubsequence(FilteredObjects(objects, selected, query), objects)
  {
    var first := Seqs.Filter(objects, o => InSelection(selected, o));
    Seqs.FilterIsSubsequence(first, o => MatchesQuery(query, o));
    Seqs.FilterIsSubsequence(objects, o => InSelection(selected, o));
    Seqs.SubsequenceTransitive(FilteredObjects(objects, selected, query), first, objects);
  }

  /** No selection (or an empty one) and an empty query show everything. */
  lemma NoFiltersKeepAll(objects: seq<StorageObject>, selected: Option<string>)
    requires !Web.Truthy(selected)
    ensures FilteredObjects(objects, selected, "") == objects
  {
    Seqs.FilterKeepsAll(objects, o => InSelection(selected, o));
    Seqs.FilterKeepsAll(objects, o => MatchesQuery("", o));
  }

  /** Selecting a bucket never adds objects to what an empty selection shows. */
  lemma SelectionNarrows(objects: seq<StorageObject>, bucket: string, query: string)
    ensures Seqs.IsSubsequence(FilteredObjects(objects, Some(bucket), query), FilteredObjects(objects, None, query))
  {
    Seqs.FilterKeepsAll(objects, o => InSelection(None, o));
    var first := Seqs.Filter(objects, o => InSelection(Some(bucket), o));
    Seqs.FilterIsSubsequence(objects, o => InSelection(Some(bucket), o));
    Seqs.FilterMonotone(first, objects, o => MatchesQuery(query, o));
  }

  /** Typing a query never adds objects to what an empty query shows. */
  lemma QueryNarrows(objects: seq<StorageObject>, selected: Option<string>, query: string)
    ensures Seqs.IsSubsequence(FilteredObjects(objects, selected, query), FilteredObjects(objects, selected, ""))
  {
    var first := Seqs.Filter(objects, o => InSelection(selected, o));
    Seqs.FilterKeepsAll(first, o => MatchesQuery("", o));
    Seqs.FilterIsSubsequence(first, o => MatchesQuery(query, o));
  }

  /** The bucket card's click handler. */
  function ToggleSelection(selected: Option<string>, bucket: string): (r: Option<string>)
    ensures r == None <==> selected == Some(bucket)
    ensures r != None ==> r == Some(bucket)
  {
    if selected == Some(bucket) then None else Some(bucket)
  }

  /** Clicking the same bucket twice restores the selection when nothing or
      that bucket was selected; a different prior selection is lost. */
  lemma ToggleTwice(selected: Option<string>, bucket: string)
    ensures selected == None || selected == Some(bucket) ==> ToggleSelection(ToggleSelection(selected, bucket), bucket) == selected
    ensures selected.Some? && selected.value != bucket ==> ToggleSelection(ToggleSelection(selected, bucket), bucket) == None
  {
  }

  /** `totalObjects`: the sum of the buckets' object counts. */
  function TotalObjects(buckets: seq<Bucket>): nat {
    if buckets == [] then 0 else buckets[0].objects + TotalObjects(buckets[1..])
  }

  lemma {:induction false} TotalObjectsAppend(a: seq<Bucket>, b: seq<Bucket>)
    ensures TotalObjects(a + b) == TotalObjects(a) + TotalObjects(b)
    decreases |a|
  {
    if a == [] {
      assert a + b == b;
    } else {
      TotalObjectsAppend(a[1..], b);
      assert (a + b)[1..] == a[1..] + b;
    }
  }

  /** Every bucket's count is part of the total. */
  lemma {:induction false} TotalObjectsBounds(buckets: seq<Bucket>, i: nat)
    requires i < |buckets|
    ensures buckets[i].objects <= TotalObjects(buckets)
    decreases i
  {
    if i > 0 {
      TotalObjectsBounds(buckets[1..], i - 1);
    }
  }

  predicate IsPublic(b: Bucket) { b.access == Public }

  /** `buckets.filter(b => b.access === 'public').length` */
  function PublicCount(buckets: seq<Bucket>): (n: nat)
    ensures n <= |buckets|
    ensures n == 0 <==> forall i :: 0 <= i < |buckets| ==> buckets[i].access == Private
    ensures n == |buckets| <==> forall i :: 0 <= i < |buckets| ==> buckets[i].access == Public
  {
    Seqs.CountIsFilterLength(buckets, IsPublic);
    Seqs.CountAll(buckets, IsPublic);
    |Seqs.Filter(buckets, IsPublic)|
  }

  /** The public count is additive over concatenation, so it counts each
      public bucket exactly once. */
  lemma PublicCountAppend(a: seq<Bucket>, b: seq<Bucket>)
    ensures PublicCount(a + b) == PublicCount(a) + PublicCount(b)
  {
    Seqs.CountIsFilterLength(a + b, IsPublic);
    Seqs.CountIsFilterLength(a, IsPublic);
    Seqs.CountIsFilterLength(b, IsPublic);
    Seqs.CountAppend(a, b, IsPublic);
  }

  /** The message under an empty object list. */
  function EmptyMessage(query: string): (m: string)
    ensures query != "" ==> m == "No objects match your search"
    ensures query == "" ==> m == "No objects found"
  {
    if query != "" then "No objects match your search" else "No objects found"
  }

  /** An empty list under an empty query means the selection (or the store)
      has no objects at all, so the message never blames the search. */
  lemma EmptyWithoutQuery(objects: seq<StorageObject>, selected: Option<string>)
    requires FilteredObjects(objects, selected, "") == []
    ensures EmptyMessage("") == "No objects found"
    ensures forall i :: 0 <= i < |objects| ==> !InSelection(selected, objects[i])
  {
    var first := Seqs.Filter(objects, o => InSelection(selected, o));
    Seqs.FilterKeepsAll(first, o => MatchesQuery("", o));
  }
}
