/** Image bookkeeping shared by the product create and edit pages: removing one
    entry of an image list, the rule that moves the "main image" index when an
    entry is removed, the thumbnail choice and the sequential upload loop. */
module ProductImages {
  import opened Wrappers

  /** A file picked in the browser; only its name is ever read. */
  datatype ImageFile = ImageFile(name: string)

  /** Drop position `i`, if there is one. */
  function RemoveAt<T>(s: seq<T>, i: int): (r: seq<T>)
    ensures 0 <= i < |s| ==> |r| == |s| - 1
    ensures 0 <= i < |s| ==> forall k :: 0 <= k < i ==> r[k] == s[k]
    ensures 0 <= i < |s| ==> forall k :: i <= k < |r| ==> r[k] == s[k + 1]
    ensures !(0 <= i < |s|) ==> r == s
  {
    if 0 <= i < |s| then s[..i] + s[i + 1..] else s
  }

  /** The create page's main-index update after removing position `i`: reset to
      0 when the main image itself goes, step back when an earlier one goes. */
  function ShiftMain(main: int, i: int): (r: int)
    ensures i == main ==> r == 0
    ensures i < main ==> r == main - 1
    ensures i > main ==> r == main
  {
    if i == main then 0 else if i < main then main - 1 else main
  }

  /** Removing any image other than the selected one leaves the selection on
      the same image, and the index stays in range whenever images remain. */
  lemma ShiftKeepsSelection<T>(s: seq<T>, main: int, i: int)
    requires 0 <= main < |s| && 0 <= i < |s|
    ensures |s| > 1 ==> 0 <= ShiftMain(main, i) < |RemoveAt(s, i)|
    ensures i != main ==> RemoveAt(s, i)[ShiftMain(main, i)] == s[main]
  {
  }

  /** In a list laid out as `front + back`, removing an entry of the front is
      removing it from the front alone. */
  lemma RemoveInFront<T>(front: seq<T>, back: seq<T>, i: int)
    requires 0 <= i < |front|
    ensures RemoveAt(front, i) + back == RemoveAt(front + back, i)
  {
    var l := RemoveAt(front, i) + back;
    var r := RemoveAt(front + back, i);
    assert |l| == |r|;
    forall k | 0 <= k < |l| ensures l[k] == r[k] {
      if k >= |front| - 1 {
        assert l[k] == back[k - (|front| - 1)];
      }
    }
  }

  /** In a list laid out as `front + back`, removing entry `i` of the back is
      removing entry `|front| + i` of the whole. */
  lemma RemoveBehind<T>(front: seq<T>, back: seq<T>, i: int)
    requires 0 <= i < |back|
    ensures front + RemoveAt(back, i) == RemoveAt(front + back, |front| + i)
  {
    var l := front + RemoveAt(back, i);
    var r := RemoveAt(front + back, |front| + i);
    assert |l| == |r|;
    forall k | 0 <= k < |l| ensures l[k] == r[k] {
      if k >= |front| {
        assert l[k] == RemoveAt(back, i)[k - |front|];
      }
    }
  }

  /** The thumbnail: the selected URL when there is a non-empty one at that
      index, else the first URL, else the empty string. */
  function Thumbnail(urls: seq<string>, main: int): (r: string)
    ensures 0 <= main < |urls| && urls[main] != "" ==> r == urls[main]
    ensures !(0 <= main < |urls| && urls[main] != "") && |urls| > 0 ==> r == urls[0]
    ensures |urls| == 0 ==> r == ""
  {
    if 0 <= main < |urls| && urls[main] != "" then urls[main]
    else if |urls| > 0 then urls[0]
    else ""
  }

  /** The thumbnail is always one of the URLs, or empty when there is none. */
  lemma ThumbnailIsAnImage(urls: seq<string>, main: int)
    ensures |urls| > 0 ==> Thumbnail(urls, main) in urls
    ensures |urls| == 0 ==> Thumbnail(urls, main) == ""
  {
  }

  /** The index of the first failed reply among the first `count`, if any. */
  predicate FirstFailure(count: nat, reply: nat -> Result<string>, k: nat) {
    k < count && reply(k).Failure? && forall j :: 0 <= j < k ==> reply(j).Success?
  }

  /** The upload loop: upload the files in order, collect their public URLs,
      and stop at the first failure, whose error is rethrown. `reply(k)` is the
      storage's answer to the k-th upload. */
  method UploadAll(count: nat, reply: nat -> Result<string>) returns (r: Result<seq<string>>)
    ensures r.Success? <==> forall k :: 0 <= k < count ==> reply(k).Success?
    ensures r.Success? ==> |r.value| == count
    ensures r.Success? ==> forall k :: 0 <= k < count ==> r.value[k] == reply(k).value
    ensures r.Failure? ==> exists k :: FirstFailure(count, reply, k) && r.error == reply(k).error
  {
    var urls: seq<string> := [];
    var i: nat := 0;
    while i < count
      invariant i <= count
      invariant |urls| == i
      invariant forall k :: 0 <= k < i ==> reply(k).Success? && urls[k] == reply(k).value
    {
      var answer := reply(i);
      if answer.Failure? {
        assert FirstFailure(count, reply, i);
        return Failure(answer.error);
      }
      urls := urls + [answer.value];
      i := i + 1;
    }
    return Success(urls);
  }
}
