/** The request state of the prompt form: submitting a prompt sets the loading
    flag and issues one image-generation query; when the query settles the flag
    is cleared and, on success, the URL of the first returned image becomes the
    result. The generation service itself is outside the model: its answer is
    an input, `Outcome`. */
module ImageRequest {

  /** Number of images requested and their size. */
  const IMAGE_COUNT: nat := 1
  const IMAGE_SIZE: string := "512x512"

  /** The query sent to the generation service. */
  datatype Query = Query(prompt: string, count: nat, size: string)

  /** An image descriptor returned by the service. */
  datatype Image = Image(url: string)

  /** How the query settled: a list of image descriptors, or a failure of any
      shape (the shapes differ only in what is logged). */
  datatype Outcome = Generated(data: seq<Image>) | Failed

  /** The component state the request handler writes. */
  datatype Form = Form(result: string, loading: bool)

  /** The form's state when the component is mounted. */
  function Mounted(): Form {
    Form("", false)
  }

  /** The outcome delivers a first image; reading `data[0]` on an empty list
      throws inside the handler and is caught like a failure. */
  predicate Delivers(o: Outcome) {
    o.Generated? && |o.data| > 0
  }

  /** Submission: the loading flag is raised, the result kept, and one query
      for the current prompt is issued. */
  function Submit(f: Form, prompt: string): (r: (Form, Query))
    ensures r.0.loading && r.0.result == f.result
    ensures r.1.prompt == prompt && r.1.count == 1 && r.1.size == "512x512"
  {
    (f.(loading := true), Query(prompt, IMAGE_COUNT, IMAGE_SIZE))
  }

  /** Settling: the loading flag is cleared whatever the outcome; the result
      becomes the first image's URL when one was delivered and is otherwise
      left as it was. */
  function Settle(f: Form, o: Outcome): (g: Form)
    ensures !g.loading
    ensures Delivers(o) ==> g.result == o.data[0].url
    ensures !Delivers(o) ==> g.result == f.result
  {
    match o
    case Generated(data) =>
      var cleared := f.(loading := false);
      if |data| > 0 then cleared.(result := data[0].url) else cleared
    case Failed => f.(loading := false)
  }

  /** Something that happens to the form: a submission, or a pending query
      settling. */
  datatype Event = Submitted(prompt: string) | Settled(outcome: Outcome)

  /** The form after a sequence of events, oldest first. */
  function Replay(f: Form, events: seq<Event>): Form
    decreases |events|
  {
    if events == [] then f
    else
      var f' := Replay(f, events[..|events| - 1]);
      match events[|events| - 1]
      case Submitted(p) => Submit(f', p).0
      case Settled(o) => Settle(f', o)
  }

  /** Index of the last settled event that delivered an image, or -1. */
  function LastDelivered(events: seq<Event>): (k: int)
    ensures -1 <= k < |events|
    ensures k >= 0 ==> events[k].Settled? && Delivers(events[k].outcome)
    ensures forall j :: k < j < |events| ==> !(events[j].Settled? && Delivers(events[j].outcome))
    decreases |events|
  {
    if events == [] then -1
    else if events[|events| - 1].Settled? && Delivers(events[|events| - 1].outcome) then |events| - 1
    else LastDelivered(events[..|events| - 1])
  }

  /** Whatever the submissions and settlements and in whatever order the
      queries settle, the result is the URL delivered by the last query to
      settle with an image (last write wins), or the initial result if none
      did; and the form shows as loading exactly when the latest event was a
      submission, so one settling query clears the flag even while another is
      still pending. */
  lemma {:induction false} ReplayState(f: Form, events: seq<Event>)
    ensures var g := Replay(f, events);
      && (var k := LastDelivered(events);
          g.result == if k < 0 then f.result else events[k].outcome.data[0].url)
      && (g.loading <==> if events == [] then f.loading else events[|events| - 1].Submitted?)
    decreases |events|
  {
    if events != [] {
      var init := events[..|events| - 1];
      ReplayState(f, init);
      var k := LastDelivered(events);
      if k != |events| - 1 {
        assert k == LastDelivered(init);
      }
    }
  }

  /** Two overlapping submissions: after the first query settles the form no
      longer shows as loading although the second is still pending, and when
      both deliver, the one that settles last decides the result. */
  lemma OverlappingSubmissions(f: Form, p1: string, p2: string, o1: Outcome, o2: Outcome)
    requires Delivers(o1) && Delivers(o2)
    ensures var g := Settle(Submit(Submit(f, p1).0, p2).0, o1);
      && !g.loading
      && Settle(g, o2).result == o2.data[0].url
  {
  }

  /** A successful generation for "A pineapple in the ocean" returning
      "https://example.com/img.png" ends loading with that URL as the result;
      a failure afterwards ends loading and keeps it. */
  lemma PineappleExample()
    ensures var (f1, q) := Submit(Mounted(), "A pineapple in the ocean");
      && q == Query("A pineapple in the ocean", 1, "512x512")
      && var f2 := Settle(f1, Generated([Image("https://example.com/img.png")]));
      && f2 == Form("https://example.com/img.png", false)
      && Settle(Submit(f2, "x").0, Failed) == f2
  {
  }

  /** The form component, whose handler updates the loading flag and the
      result in place across the awaited query. */
  class ImageForm {
    var result: string
    var loading: bool

    function Current(): Form
      reads this
    {
      Form(result, loading)
    }

    constructor ()
      ensures Current() == Mounted()
    {
      result := "";
      loading := false;
    }

    /** The handler up to the awaited call: raise the flag and issue the query. */
    method Begin(prompt: string) returns (q: Query)
      modifies this
      ensures (Current(), q) == Submit(old(Current()), prompt)
    {
      loading := true;
      q := Query(prompt, IMAGE_COUNT, IMAGE_SIZE);
    }

    /** The handler after the awaited call: on an answer clear the flag and
        store the first URL; reading the first descriptor of an empty list
        throws, and the catch, like any failure, clears the flag again. */
    method Finish(o: Outcome)
      modifies this
      ensures Current() == Settle(old(Current()), o)
    {
      match o {
        case Generated(data) =>
          loading := false;
          if |data| > 0 {
            result := data[0].url;
          } else {
            loading := false;
          }
        case Failed =>
          loading := false;
      }
    }
  }
}
