/**
 * The dispatch loop of one run: walk the documents of one variant, expand
 * each into its attachments, skip attachments without a link, count links
 * already known, and schedule every other link once, adding it to the set
 * of known links. Then, when something was scheduled, run the download
 * phase over the scheduled jobs.
 */
module Dispatch {
  import opened Wrappers
  import opened Naming
  import opened DownloadPhase

  /** A decoded attachment record: its link ("" when absent or empty) and its number, if any. */
  datatype Attachment = Attachment(link: string, attachNum: Option<string>)

  /**
   * A document row with its attachment payloads already decoded: both id
   * keys ("" when absent or empty), the single attachment a data document
   * embeds, and the list a party document carries.
   */
  datatype Descriptor = Descriptor(documentId: string, id: string, originalText: Attachment, attachments: seq<Attachment>)

  /** A scheduled download: the URL, the link it came from, the target file name. */
  datatype Job = Job(url: string, link: string, fileName: string)

  /** An attachment together with the id of the document that carries it. */
  datatype Item = Item(docId: string, attachment: Attachment)

  /** The id key depends on the variant. */
  function DocId(v: Variant, d: Descriptor): string
  {
    if v == Data then d.documentId else d.id
  }

  /** A data document has exactly one attachment; a party document has its list. */
  function AttachmentsOf(v: Variant, d: Descriptor): seq<Attachment>
  {
    if v == Data then [d.originalText] else d.attachments
  }

  function Tagged(docId: string, atts: seq<Attachment>): seq<Item>
  {
    seq(|atts|, k requires 0 <= k < |atts| => Item(docId, atts[k]))
  }

  /** The attachments the loop looks at for one document: none when it has no id. */
  function DocItems(v: Variant, d: Descriptor): seq<Item>
  {
    if DocId(v, d) == "" then [] else Tagged(DocId(v, d), AttachmentsOf(v, d))
  }

  /** Every attachment the loop looks at, in order. */
  function Items(v: Variant, docs: seq<Descriptor>): seq<Item>
  {
    if docs == [] then [] else Items(v, docs[..|docs| - 1]) + DocItems(v, docs[|docs| - 1])
  }

  /** Every attachment the loop looks at belongs to a document with an id, and carries that id. */
  lemma {:induction false} ItemOrigin(v: Variant, docs: seq<Descriptor>, it: Item)
    requires it in Items(v, docs)
    ensures it.docId != ""
    ensures exists d :: d in docs && DocId(v, d) == it.docId && it.attachment in AttachmentsOf(v, d)
    decreases |docs|
  {
    var init, last := docs[..|docs| - 1], docs[|docs| - 1];
    if it in Items(v, init) {
      ItemOrigin(v, init, it);
      var d :| d in init && DocId(v, d) == it.docId && it.attachment in AttachmentsOf(v, d);
      assert d in docs;
    } else {
      var atts := AttachmentsOf(v, last);
      var k :| 0 <= k < |atts| && DocItems(v, last)[k] == it;
      assert it.attachment == atts[k];
    }
  }

  /** Every attachment of a document with an id is looked at. */
  lemma {:induction false} AttachmentIncluded(v: Variant, docs: seq<Descriptor>, i: nat, a: Attachment)
    requires i < |docs| && DocId(v, docs[i]) != "" && a in AttachmentsOf(v, docs[i])
    ensures Item(DocId(v, docs[i]), a) in Items(v, docs)
    decreases |docs|
  {
    var init := docs[..|docs| - 1];
    var it := Item(DocId(v, docs[i]), a);
    if i == |docs| - 1 {
      var atts := AttachmentsOf(v, docs[i]);
      var k :| 0 <= k < |atts| && atts[k] == a;
      assert DocItems(v, docs[i])[k] == it;
    } else {
      assert init[i] == docs[i];
      AttachmentIncluded(v, init, i, a);
    }
  }

  /** The job scheduled for an attachment. */
  function MakeJob(v: Variant, baseLink: string, it: Item): Job
  {
    var link := it.attachment.link;
    Job(DownloadUrl(baseLink, link), link, FileName(v, it.docId, it.attachment.attachNum, link))
  }

  /** The number of attachments without a link. */
  function Linkless(ps: seq<Item>): nat
  {
    if ps == [] then 0
    else Linkless(ps[..|ps| - 1]) + if ps[|ps| - 1].attachment.link == "" then 1 else 0
  }

  /** The links that occur. */
  ghost function LinksOf(ps: seq<Item>): set<string>
  {
    set k | 0 <= k < |ps| && ps[k].attachment.link != "" :: ps[k].attachment.link
  }

  /** The links of a set of jobs. */
  ghost function JobLinks(jobs: set<Job>): set<string>
  {
    set j | j in jobs :: j.link
  }

  /** Attachment n has a link that no earlier attachment has. */
  ghost predicate IsFirstOccurrence(ps: seq<Item>, n: nat)
    requires n < |ps|
  {
    ps[n].attachment.link != "" && forall e :: 0 <= e < n ==> ps[e].attachment.link != ps[n].attachment.link
  }

  /** No two scheduled jobs share a link. */
  ghost predicate OnePerLink(jobs: set<Job>)
  {
    forall j1, j2 :: j1 in jobs && j2 in jobs && j1.link == j2.link ==> j1 == j2
  }

  /** Every job is built from the first attachment carrying its link. */
  ghost predicate FromFirstOccurrences(v: Variant, baseLink: string, ps: seq<Item>, jobs: set<Job>)
  {
    forall j :: j in jobs ==>
      exists n :: 0 <= n < |ps| && IsFirstOccurrence(ps, n) && j == MakeJob(v, baseLink, ps[n])
  }

  /** Every first occurrence of a link not known beforehand has its job. */
  ghost predicate NewLinksScheduled(v: Variant, baseLink: string, existing: set<string>, ps: seq<Item>, jobs: set<Job>)
  {
    forall n :: 0 <= n < |ps| && IsFirstOccurrence(ps, n) && ps[n].attachment.link !in existing ==>
      MakeJob(v, baseLink, ps[n]) in jobs
  }

  /**
   * What the loop has done after the attachments `ps`, having started from
   * the known links `existing`:
   * - the known links are the old ones plus the links of the scheduled jobs;
   * - a link is scheduled exactly when it occurs and was not known before;
   * - no link is scheduled twice;
   * - each job is built from the first attachment carrying its link, and
   *   every first occurrence of a new link has its job;
   * - every attachment is counted once: without a link, already known, or
   *   scheduled.
   */
  ghost predicate Dispatched(v: Variant, baseLink: string, existing: set<string>, ps: seq<Item>,
                             links: set<string>, inDb: nat, toDownload: set<Job>)
  {
    && links == existing + JobLinks(toDownload)
    && JobLinks(toDownload) == LinksOf(ps) - existing
    && OnePerLink(toDownload)
    && FromFirstOccurrences(v, baseLink, ps, toDownload)
    && NewLinksScheduled(v, baseLink, existing, ps, toDownload)
    && |ps| == Linkless(ps) + inDb + |toDownload|
  }

  /** The attachments before position n of `ps + [it]` are those of `ps`. */
  lemma ExtendIndex(ps: seq<Item>, it: Item)
    ensures forall n :: 0 <= n < |ps| ==> (ps + [it])[n] == ps[n]
    ensures forall n :: 0 <= n < |ps| ==> (IsFirstOccurrence(ps + [it], n) <==> IsFirstOccurrence(ps, n))
    ensures (ps + [it])[|ps|] == it
  {
  }

  /** Position n of `ps` holds a link exactly when that link is in LinksOf(ps). */
  lemma InLinksOf(ps: seq<Item>, n: nat)
    requires n < |ps|
    ensures ps[n].attachment.link == "" || ps[n].attachment.link in LinksOf(ps)
  {
  }

  /** The appended attachment is a first occurrence exactly when its link is new. */
  lemma ExtendFirst(ps: seq<Item>, it: Item)
    ensures IsFirstOccurrence(ps + [it], |ps|) <==> it.attachment.link != "" && it.attachment.link !in LinksOf(ps)
  {
    var qs := ps + [it];
    var link := it.attachment.link;
    ExtendIndex(ps, it);
    if link != "" && link in LinksOf(ps) {
      var k :| 0 <= k < |ps| && ps[k].attachment.link != "" && ps[k].attachment.link == link;
      assert qs[k].attachment.link == link;
    }
    if link != "" && link !in LinksOf(ps) {
      forall e | 0 <= e < |ps| ensures qs[e].attachment.link != link {
        InLinksOf(ps, e);
      }
    }
  }

  /** Appending an attachment adds its link, if it has one. */
  lemma ExtendLinks(ps: seq<Item>, it: Item)
    ensures LinksOf(ps + [it]) == LinksOf(ps) + if it.attachment.link != "" then {it.attachment.link} else {}
  {
    var qs := ps + [it];
    var link := it.attachment.link;
    ExtendIndex(ps, it);
    forall l | l in LinksOf(qs) ensures l in LinksOf(ps) + if link != "" then {link} else {} {
      var k :| 0 <= k < |qs| && qs[k].attachment.link != "" && qs[k].attachment.link == l;
      assert k < |ps| ==> ps[k].attachment.link == l;
    }
    forall l | l in LinksOf(ps) ensures l in LinksOf(qs) {
      var k :| 0 <= k < |ps| && ps[k].attachment.link != "" && ps[k].attachment.link == l;
      assert qs[k].attachment.link == l;
    }
    InLinksOf(qs, |ps|);
  }

  /** Appending an attachment counts it when it has no link. */
  lemma ExtendLinkless(ps: seq<Item>, it: Item)
    ensures Linkless(ps + [it]) == Linkless(ps) + if it.attachment.link == "" then 1 else 0
  {
    assert (ps + [it])[..|ps|] == ps;
  }

  /** Appending one attachment: what changes for first occurrences, the links and the count. */
  lemma Extend(ps: seq<Item>, it: Item)
    ensures IsFirstOccurrence(ps + [it], |ps|) <==> it.attachment.link != "" && it.attachment.link !in LinksOf(ps)
    ensures LinksOf(ps + [it]) == LinksOf(ps) + if it.attachment.link != "" then {it.attachment.link} else {}
    ensures Linkless(ps + [it]) == Linkless(ps) + if it.attachment.link == "" then 1 else 0
  {
    ExtendFirst(ps, it);
    ExtendLinks(ps, it);
    ExtendLinkless(ps, it);
  }

  /** Jobs built from first occurrences stay so when an attachment is appended. */
  lemma FromFirstExtend(v: Variant, baseLink: string, ps: seq<Item>, it: Item, jobs: set<Job>)
    requires FromFirstOccurrences(v, baseLink, ps, jobs)
    ensures FromFirstOccurrences(v, baseLink, ps + [it], jobs)
  {
    var qs := ps + [it];
    ExtendIndex(ps, it);
    forall j | j in jobs
      ensures exists n :: 0 <= n < |qs| && IsFirstOccurrence(qs, n) && j == MakeJob(v, baseLink, qs[n])
    {
      var n :| 0 <= n < |ps| && IsFirstOccurrence(ps, n) && j == MakeJob(v, baseLink, ps[n]);
      assert IsFirstOccurrence(qs, n) && qs[n] == ps[n];
    }
  }

  /** An attachment that is no first occurrence of a new link needs no job. */
  lemma NewLinksExtendOld(v: Variant, baseLink: string, existing: set<string>, ps: seq<Item>, it: Item, jobs: set<Job>)
    requires NewLinksScheduled(v, baseLink, existing, ps, jobs)
    requires !IsFirstOccurrence(ps + [it], |ps|) || it.attachment.link in existing
    ensures NewLinksScheduled(v, baseLink, existing, ps + [it], jobs)
  {
    ExtendIndex(ps, it);
  }

  /** A first occurrence of a new link gets its job. */
  lemma NewLinksExtendNew(v: Variant, baseLink: string, existing: set<string>, ps: seq<Item>, it: Item, jobs: set<Job>)
    requires NewLinksScheduled(v, baseLink, existing, ps, jobs)
    ensures NewLinksScheduled(v, baseLink, existing, ps + [it], jobs + {MakeJob(v, baseLink, it)})
  {
    ExtendIndex(ps, it);
  }

  /** An attachment without a link is skipped. */
  lemma StepLinkless(v: Variant, baseLink: string, existing: set<string>, ps: seq<Item>, it: Item,
                     links: set<string>, inDb: nat, toDownload: set<Job>)
    requires Dispatched(v, baseLink, existing, ps, links, inDb, toDownload)
    requires it.attachment.link == ""
    ensures Dispatched(v, baseLink, existing, ps + [it], links, inDb, toDownload)
  {
    Extend(ps, it);
    FromFirstExtend(v, baseLink, ps, it, toDownload);
    NewLinksExtendOld(v, baseLink, existing, ps, it, toDownload);
  }

  /** An attachment whose link is known is only counted. */
  lemma StepKnown(v: Variant, baseLink: string, existing: set<string>, ps: seq<Item>, it: Item,
                  links: set<string>, inDb: nat, toDownload: set<Job>)
    requires Dispatched(v, baseLink, existing, ps, links, inDb, toDownload)
    requires it.attachment.link != "" && it.attachment.link in links
    ensures Dispatched(v, baseLink, existing, ps + [it], links, inDb + 1, toDownload)
  {
    Extend(ps, it);
    FromFirstExtend(v, baseLink, ps, it, toDownload);
    NewLinksExtendOld(v, baseLink, existing, ps, it, toDownload);
  }

  /** Adding a job whose link no job has yet. */
  lemma AddJob(jobs: set<Job>, job: Job)
    requires OnePerLink(jobs) && job.link !in JobLinks(jobs)
    ensures job !in jobs && |jobs + {job}| == |jobs| + 1
    ensures JobLinks(jobs + {job}) == JobLinks(jobs) + {job.link}
    ensures OnePerLink(jobs + {job})
  {
    forall j | j in jobs ensures j.link != job.link {
      assert j.link in JobLinks(jobs);
    }
  }

  /** The job of a first occurrence is built from a first occurrence. */
  lemma FromFirstAddNew(v: Variant, baseLink: string, ps: seq<Item>, it: Item, jobs: set<Job>)
    requires FromFirstOccurrences(v, baseLink, ps, jobs)
    requires IsFirstOccurrence(ps + [it], |ps|)
    ensures FromFirstOccurrences(v, baseLink, ps + [it], jobs + {MakeJob(v, baseLink, it)})
  {
    FromFirstExtend(v, baseLink, ps, it, jobs);
    ExtendIndex(ps, it);
  }

  /** Adding an element outside `e` commutes with removing `e`. */
  lemma AddOutside<T>(a: set<T>, e: set<T>, x: T)
    requires x !in e
    ensures (a - e) + {x} == (a + {x}) - e
  {
  }

  /** The known links and the scheduled links after scheduling a new link. */
  lemma NewLinkSets(existing: set<string>, ps: seq<Item>, it: Item, links: set<string>, jobs: set<Job>, job: Job)
    requires links == existing + JobLinks(jobs)
    requires JobLinks(jobs) == LinksOf(ps) - existing
    requires it.attachment.link != "" && it.attachment.link !in links && job.link == it.attachment.link
    requires JobLinks(jobs + {job}) == JobLinks(jobs) + {job.link}
    ensures links + {it.attachment.link} == existing + JobLinks(jobs + {job})
    ensures JobLinks(jobs + {job}) == LinksOf(ps + [it]) - existing
  {
    ExtendLinks(ps, it);
    AddOutside(LinksOf(ps), existing, job.link);
  }

  /** An attachment with a new link is scheduled and its link becomes known. */
  lemma StepNew(v: Variant, baseLink: string, existing: set<string>, ps: seq<Item>, it: Item,
                links: set<string>, inDb: nat, toDownload: set<Job>)
    requires Dispatched(v, baseLink, existing, ps, links, inDb, toDownload)
    requires it.attachment.link != "" && it.attachment.link !in links
    ensures Dispatched(v, baseLink, existing, ps + [it], links + {it.attachment.link}, inDb,
                       toDownload + {MakeJob(v, baseLink, it)})
  {
    var job := MakeJob(v, baseLink, it);
    ExtendLinkless(ps, it);
    AddJob(toDownload, job);
    NewLinkSets(existing, ps, it, links, toDownload, job);
    ExtendFirst(ps, it);
    FromFirstAddNew(v, baseLink, ps, it, toDownload);
    NewLinksExtendNew(v, baseLink, existing, ps, it, toDownload);
  }

  /** The items of the first i + 1 documents: those of the first i, then those of document i. */
  lemma ItemsStep(v: Variant, documents: seq<Descriptor>, i: nat)
    requires i < |documents|
    ensures Items(v, documents[..i + 1]) == Items(v, documents[..i]) + DocItems(v, documents[i])
  {
    assert documents[..i + 1][..i] == documents[..i];
  }

  lemma TaggedStep(done: seq<Item>, docId: string, atts: seq<Attachment>, k: nat)
    requires k < |atts|
    ensures done + Tagged(docId, atts[..k + 1]) == done + Tagged(docId, atts[..k]) + [Item(docId, atts[k])]
  {
    assert Tagged(docId, atts[..k + 1]) == Tagged(docId, atts[..k]) + [Item(docId, atts[k])];
  }

  /** Before any attachment, nothing is known but the old links and nothing is scheduled. */
  lemma DispatchedInitially(v: Variant, baseLink: string, existing: set<string>)
    ensures Dispatched(v, baseLink, existing, [], existing, 0, {})
  {
    assert JobLinks({}) == {};
    assert LinksOf([]) == {};
  }

  /**
   * One attachment: skip it when it has no link, count it when its link is
   * known, and otherwise make its link known and schedule its job.
   */
  method DispatchAttachment(v: Variant, baseLink: string, existing: set<string>, ghost done: seq<Item>,
                            docId: string, attachment: Attachment,
                            links: set<string>, inDb: nat, jobs: set<Job>)
    returns (links': set<string>, inDb': nat, jobs': set<Job>)
    requires Dispatched(v, baseLink, existing, done, links, inDb, jobs)
    ensures Dispatched(v, baseLink, existing, done + [Item(docId, attachment)], links', inDb', jobs')
  {
    links', inDb', jobs' := links, inDb, jobs;
    var link := attachment.link;
    if link == "" {
      StepLinkless(v, baseLink, existing, done, Item(docId, attachment), links, inDb, jobs);
      return;
    }
    if link in links {
      StepKnown(v, baseLink, existing, done, Item(docId, attachment), links, inDb, jobs);
      inDb' := inDb + 1;
      return;
    }
    StepNew(v, baseLink, existing, done, Item(docId, attachment), links, inDb, jobs);
    links' := links + {link};
    var fileName := FileName(v, docId, attachment.attachNum, link);
    jobs' := jobs + {Job(DownloadUrl(baseLink, link), link, fileName)};
  }

  /** The attachments of one document, in order. `done` is what the loop has seen before this document. */
  method DispatchAttachments(v: Variant, baseLink: string, existing: set<string>, ghost done: seq<Item>,
                             docId: string, attachments: seq<Attachment>,
                             links: set<string>, inDb: nat, jobs: set<Job>)
    returns (links': set<string>, inDb': nat, jobs': set<Job>)
    requires Dispatched(v, baseLink, existing, done, links, inDb, jobs)
    ensures Dispatched(v, baseLink, existing, done + Tagged(docId, attachments), links', inDb', jobs')
  {
    links', inDb', jobs' := links, inDb, jobs;
    ghost var ps := done;
    for k := 0 to |attachments|
      invariant ps == done + Tagged(docId, attachments[..k])
      invariant Dispatched(v, baseLink, existing, ps, links', inDb', jobs')
    {
      TaggedStep(done, docId, attachments, k);
      links', inDb', jobs' := DispatchAttachment(v, baseLink, existing, ps, docId, attachments[k], links', inDb', jobs');
      ps := ps + [Item(docId, attachments[k])];
    }
    assert attachments[..|attachments|] == attachments;
  }

  /**
   * One document: none of its attachments are looked at when it has no id;
   * otherwise they are counted and dispatched. `count` is how many
   * attachments it adds to the total.
   */
  method DispatchDocument(v: Variant, baseLink: string, existing: set<string>, ghost done: seq<Item>,
                          doc: Descriptor, links: set<string>, inDb: nat, jobs: set<Job>)
    returns (links': set<string>, inDb': nat, jobs': set<Job>, count: nat)
    requires Dispatched(v, baseLink, existing, done, links, inDb, jobs)
    ensures Dispatched(v, baseLink, existing, done + DocItems(v, doc), links', inDb', jobs')
    ensures count == |DocItems(v, doc)|
  {
    links', inDb', jobs', count := links, inDb, jobs, 0;
    var docId := DocId(v, doc);
    if docId == "" {
      assert done + DocItems(v, doc) == done;
      return;
    }
    var attachments := AttachmentsOf(v, doc);
    if attachments != [] {
      count := |attachments|;
      links', inDb', jobs' := DispatchAttachments(v, baseLink, existing, done, docId, attachments, links, inDb, jobs);
    } else {
      assert done + DocItems(v, doc) == done;
    }
  }

  /**
   * The download phase over the scheduled jobs; the counters are the same
   * for every order in which the tasks may complete.
   */
  method DownloadAll(jobs: set<Job>, resultOf: Job -> TaskResult) returns (stats: Stats)
    ensures Total(stats) == |jobs|
    ensures forall order :: IsCompletionOrder(order, jobs) ==> stats == Tally(Results(order, resultOf))
  {
    var order := SomeCompletionOrder(jobs);
    stats := RunAllDownloads(jobs, order, resultOf);
    forall other | IsCompletionOrder(other, jobs)
      ensures stats == Tally(Results(other, resultOf))
    {
      TallyOrderIndependent(jobs, order, other, resultOf);
    }
  }

  /**
   * One run of the dispatch loop over the documents of one variant, then the
   * download phase when something was scheduled. `existing` is the set of
   * links the catalog already has; `resultOf` says what the task of each job
   * gives.
   */
  method GatherDocuments(v: Variant, baseLink: string, documents: seq<Descriptor>, existing: set<string>,
                         resultOf: Job -> TaskResult)
    returns (linksAfter: set<string>, filesInDb: nat, allAttachments: nat, toDownload: set<Job>, stats: Option<Stats>)
    ensures Dispatched(v, baseLink, existing, Items(v, documents), linksAfter, filesInDb, toDownload)
    ensures allAttachments == |Items(v, documents)|
    ensures documents == [] ==> toDownload == {}
    ensures stats.Some? <==> toDownload != {}
    ensures stats.Some? ==> Total(stats.value) == |toDownload|
    ensures stats.Some? ==>
      forall order :: IsCompletionOrder(order, toDownload) ==> stats.value == Tally(Results(order, resultOf))
  {
    linksAfter, filesInDb, allAttachments, toDownload, stats := existing, 0, 0, {}, None;
    DispatchedInitially(v, baseLink, existing);
    if documents == [] {
      return;
    }
    for i := 0 to |documents|
      invariant Dispatched(v, baseLink, existing, Items(v, documents[..i]), linksAfter, filesInDb, toDownload)
      invariant allAttachments == |Items(v, documents[..i])|
    {
      ItemsStep(v, documents, i);
      var count;
      linksAfter, filesInDb, toDownload, count :=
        DispatchDocument(v, baseLink, existing, Items(v, documents[..i]), documents[i],
                         linksAfter, filesInDb, toDownload);
      allAttachments := allAttachments + count;
    }
    assert documents[..|documents|] == documents;
    if toDownload == {} {
      return;
    }
    var counters := DownloadAll(toDownload, resultOf);
    stats := Some(counters);
  }

  /** With one job per link, there are as many links as jobs. */
  lemma {:induction false} OnePerLinkCount(jobs: set<Job>)
    requires OnePerLink(jobs)
    ensures |JobLinks(jobs)| == |jobs|
    decreases |jobs|
  {
    if jobs != {} {
      var j :| j in jobs;
      var rest := jobs - {j};
      assert OnePerLink(rest);
      OnePerLinkCount(rest);
      assert j.link !in JobLinks(rest) by {
        forall r | r in rest ensures r.link != j.link {
          assert r != j;
        }
      }
      assert JobLinks(jobs) == JobLinks(rest) + {j.link};
    }
  }

  /** A job in `t1` that `Dispatched` admits is also in `t2`, which `Dispatched` admits over the same attachments. */
  lemma DispatchedJobs(v: Variant, baseLink: string, existing: set<string>, ps: seq<Item>,
                       l1: set<string>, i1: nat, t1: set<Job>, l2: set<string>, i2: nat, t2: set<Job>)
    requires Dispatched(v, baseLink, existing, ps, l1, i1, t1)
    requires Dispatched(v, baseLink, existing, ps, l2, i2, t2)
    ensures t1 <= t2
  {
    forall j | j in t1 ensures j in t2 {
      var n :| 0 <= n < |ps| && IsFirstOccurrence(ps, n) && j == MakeJob(v, baseLink, ps[n]);
      assert j.link in JobLinks(t1);
    }
  }

  /**
   * The walk is deterministic: the attachments and the catalog fix the known
   * links, the in-catalog counter and the scheduled jobs.
   */
  lemma DispatchedUnique(v: Variant, baseLink: string, existing: set<string>, ps: seq<Item>,
                         l1: set<string>, i1: nat, t1: set<Job>, l2: set<string>, i2: nat, t2: set<Job>)
    requires Dispatched(v, baseLink, existing, ps, l1, i1, t1)
    requires Dispatched(v, baseLink, existing, ps, l2, i2, t2)
    ensures l1 == l2 && i1 == i2 && t1 == t2
  {
    DispatchedJobs(v, baseLink, existing, ps, l1, i1, t1, l2, i2, t2);
    DispatchedJobs(v, baseLink, existing, ps, l2, i2, t2, l1, i1, t1);
    assert t1 == t2;
    assert Linkless(ps) + i1 + |t1| == Linkless(ps) + i2 + |t1|;
  }

  /**
   * After a run, the catalog's links and every link the documents carry are
   * known, and nothing else.
   */
  lemma KnownAfterRun(v: Variant, baseLink: string, existing: set<string>, ps: seq<Item>,
                      links: set<string>, inDb: nat, toDownload: set<Job>)
    requires Dispatched(v, baseLink, existing, ps, links, inDb, toDownload)
    ensures links == existing + LinksOf(ps)
  {
  }

  /**
   * The run schedules one download per distinct new link, and counts as
   * already in the catalog every other attachment that has a link.
   */
  lemma ScheduledCount(v: Variant, baseLink: string, existing: set<string>, ps: seq<Item>,
                       links: set<string>, inDb: nat, toDownload: set<Job>)
    requires Dispatched(v, baseLink, existing, ps, links, inDb, toDownload)
    ensures |toDownload| == |LinksOf(ps) - existing|
    ensures inDb == |ps| - Linkless(ps) - |LinksOf(ps) - existing|
  {
    OnePerLinkCount(toDownload);
  }

  /**
   * Running again once every link of the documents is in the catalog
   * schedules nothing: every attachment with a link is counted as already
   * in the catalog.
   */
  lemma RerunSchedulesNothing(v: Variant, baseLink: string, existing: set<string>, ps: seq<Item>,
                              links: set<string>, inDb: nat, toDownload: set<Job>)
    requires Dispatched(v, baseLink, existing, ps, links, inDb, toDownload)
    requires LinksOf(ps) <= existing
    ensures toDownload == {}
    ensures inDb == |ps| - Linkless(ps)
  {
    assert JobLinks(toDownload) == {};
    assert forall j :: j in toDownload ==> j.link in JobLinks(toDownload);
  }

  /** A data document "D1", with no party id and no party attachments, whose embedded attachment links to "a.pdf". */
  function DocumentD1(): Descriptor
  {
    Descriptor("D1", "", Attachment("a.pdf", None), [])
  }

  /** A set of jobs, one per link, whose only link is that of `job` and which holds `job`, is just `job`. */
  lemma OnlyJob(jobs: set<Job>, job: Job)
    requires OnePerLink(jobs) && JobLinks(jobs) == {job.link} && job in jobs
    ensures jobs == {job}
  {
    forall j | j in jobs ensures j == job {
      assert j.link in JobLinks(jobs);
    }
  }

  /** One attachment with a link: its link is the only one, it is a first occurrence and none lacks a link. */
  lemma SingleItem(it: Item)
    requires it.attachment.link != ""
    ensures LinksOf([it]) == {it.attachment.link}
    ensures IsFirstOccurrence([it], 0)
    ensures Linkless([it]) == 0
  {
    assert [it][..0] == [];
    assert [it][0].attachment.link == it.attachment.link;
  }

  /** A run over one attachment with a link, starting from an empty catalog, schedules just that attachment. */
  lemma SingleAttachmentRun(v: Variant, baseLink: string, it: Item, links: set<string>, inDb: nat, toDownload: set<Job>)
    requires Dispatched(v, baseLink, {}, [it], links, inDb, toDownload)
    requires it.attachment.link != ""
    ensures toDownload == {MakeJob(v, baseLink, it)}
    ensures links == {it.attachment.link} && inDb == 0
  {
    SingleItem(it);
    var job := MakeJob(v, baseLink, it);
    assert job in toDownload;
    assert JobLinks(toDownload) == {job.link};
    OnlyJob(toDownload, job);
    assert |toDownload| == 1 && |[it]| == 1;
  }

  /** Document "D1" yields one item: its attachment, tagged with "D1". */
  lemma DocumentD1Items()
    ensures Items(Data, [DocumentD1()]) == [Item("D1", Attachment("a.pdf", None))]
  {
    assert [DocumentD1()][..0] == [];
    assert Tagged("D1", [Attachment("a.pdf", None)]) == [Item("D1", Attachment("a.pdf", None))];
  }

  /**
   * A data document "D1" whose attachment links to "a.pdf", with an empty
   * catalog: exactly one download is scheduled, to file "D1.pdf".
   */
  lemma DocumentD1FirstRun(baseLink: string, links: set<string>, inDb: nat, toDownload: set<Job>)
    requires Dispatched(Data, baseLink, {}, Items(Data, [DocumentD1()]), links, inDb, toDownload)
    ensures toDownload == {Job(baseLink + StoragePath + "a.pdf", "a.pdf", "D1.pdf")}
    ensures links == {"a.pdf"} && inDb == 0
  {
    var it := Item("D1", Attachment("a.pdf", None));
    DocumentD1Items();
    SingleAttachmentRun(Data, baseLink, it, links, inDb, toDownload);
    DataFileNameExample();
  }
}
