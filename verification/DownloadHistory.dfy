/** What later events cannot undo (`downloader.rs`): a promoted model stays as it is, and a cancelled delta
    download takes no further part. */
module DownloadHistory {
  import opened Text
  import opened Download
  import opened DownloadProtocol

  /** A driver that is on its way has found no model at its path. */
  predicate Missing(w: World) {
    w.drivers != [] && !w.drivers[0].pc.Reserved? && !w.drivers[0].pc.Begun? && !w.drivers[0].pc.Ended?
    ==> w.drivers[0].args.Path() !in w.model
  }

  predicate Keeps(w: World, w': World) {
    forall p :: p in w.model ==> p in w'.model && w'.model[p] == w.model[p]
  }

  lemma StepKeeps(w: World, e: Event, accepts: Verifier)
    requires Inv(w, accepts) && Missing(w)
    ensures Missing(Step(w, e, accepts)) && Keeps(w, Step(w, e, accepts))
  {
    hide BeginBlob, BeginDelta, Args.WellFormed, Args.Path, FromStart, Inv;
    AtMostOne(w, accepts);
    if e.Begin? && e.i < |w.drivers| { BeginFrame(w, 0, e.answer); }
  }

  lemma AtMostOne(w: World, accepts: Verifier)
    requires Inv(w, accepts)
    ensures |w.drivers| <= 1
  {
  }

  lemma {:induction false} RunMissing(es: seq<Event>, accepts: Verifier)
    ensures Missing(Run(es, accepts))
  {
    hide Inv, Step, Missing;
    if es == [] {
      NoDriver();
    } else {
      RunMissing(es[..|es| - 1], accepts);
      RunInv(es[..|es| - 1], accepts);
      StepKeeps(Run(es[..|es| - 1], accepts), es[|es| - 1], accepts);
    }
  }

  lemma NoDriver()
    ensures Missing(INITIAL)
  {
  }

  /** Whatever happens after a model has been promoted, it is neither removed nor replaced: a download for
      its path, in whatever version of the request, ends at the model that is there. */
  lemma {:induction false} ModelStays(es: seq<Event>, more: seq<Event>, accepts: Verifier)
    ensures Keeps(Run(es, accepts), Run(es + more, accepts))
  {
    hide Inv, Step, Missing;
    if more == [] {
      assert es + more == es;
    } else {
      var n := |more| - 1;
      assert (es + more)[..|es + more| - 1] == es + more[..n];
      ModelStays(es, more[..n], accepts);
      RunMissing(es + more[..n], accepts);
      RunInv(es + more[..n], accepts);
      StepKeeps(Run(es + more[..n], accepts), more[n], accepts);
    }
  }

  // ------------------------------------------------------------ cancelled between parts

  /** Nothing is under way but a cancelled driver that still has parts to ask for, or one that has ended. */
  predicate HeldBack(w: World) {
    w.drivers != [] ==>
      && |w.drivers| == 1
      && (w.drivers[0].pc.Ended? || (w.drivers[0].pc.NextPart? && w.drivers[0].pc.todo != []
                                     && w.drivers[0].flag in w.raised))
  }

  lemma StepHeldBack(w: World, e: Event, accepts: Verifier)
    requires HeldBack(w) && !e.Start?
    ensures var w' := Step(w, e, accepts); HeldBack(w') && w'.part == w.part && w'.model == w.model
  {
    hide BeginBlob, BeginDelta, Args.Path;
  }

  /** A delta download whose flag is raised while parts are left takes none of them: until the next start
      the files stay as they are, whatever the server answers. */
  lemma {:induction false} NoPartAfterCancel(es: seq<Event>, more: seq<Event>, accepts: Verifier)
    requires HeldBack(Run(es, accepts))
    requires forall e :: e in more ==> !e.Start?
    ensures var w, w' := Run(es, accepts), Run(es + more, accepts);
            HeldBack(w') && w'.part == w.part && w'.model == w.model
  {
    hide HeldBack, Step;
    if more == [] {
      assert es + more == es;
    } else {
      var n := |more| - 1;
      assert (es + more)[..|es + more| - 1] == es + more[..n];
      NoPartAfterCancel(es, more[..n], accepts);
      StepHeldBack(Run(es + more[..n], accepts), more[n], accepts);
    }
  }
}
