/**
  The batch job's `main`: query the ids of the couriers that are not
  deleted, then for each of them, in query order, fetch the courier's rows,
  build the worksheet in a new workbook at one fixed path and close it. A
  panic ends the whole job.
 */
module Job {
  import opened Records
  import opened Sheet
  import opened Report

  /** Every courier's workbook is created at this path. */
  const ReportPath: string := "summary/test.xlsx"

  /** Ids of the couriers the query returns: those not deleted, in the order
      the database returns them. */
  function ActiveIds(couriers: seq<Courier>): (ids: seq<Int64>)
    ensures |ids| <= |couriers|
  {
    if couriers == [] then []
    else if couriers[0].isDeleted then ActiveIds(couriers[1..])
    else [couriers[0].id] + ActiveIds(couriers[1..])
  }

  /** An id is returned iff some courier with that id is not deleted. */
  lemma {:induction false} ActiveIdsMembers(couriers: seq<Courier>)
    ensures forall id :: id in ActiveIds(couriers) <==> Courier(id, false) in couriers
  {
    if couriers != [] {
      ActiveIdsMembers(couriers[1..]);
      assert couriers == [couriers[0]] + couriers[1..];
    }
  }

  /** The query keeps the couriers' order: it distributes over concatenation. */
  lemma {:induction false} ActiveIdsAppend(a: seq<Courier>, b: seq<Courier>)
    ensures ActiveIds(a + b) == ActiveIds(a) + ActiveIds(b)
  {
    if a == [] {
      assert a + b == b;
    } else {
      assert (a + b)[0] == a[0];
      assert (a + b)[1..] == a[1..] + b;
      ActiveIdsAppend(a[1..], b);
    }
  }

  /** The per-courier loop over `ids`, starting from the saved files
      `files`: the outcome and the files it leaves. */
  function Run(ids: seq<Int64>, fetch: Int64 -> seq<CourierXLS>, fmt: Formatter, files: map<string, Grid>)
    : (r: (Outcome, map<string, Grid>))
    ensures ids == [] ==> r == (Done, files)
    decreases |ids|
  {
    if ids == [] then (Done, files)
    else
      var (o, g) := ExportSheet(fetch(ids[0]), fmt);
      if o.Panic? then (o, files)
      else Run(ids[1..], fetch, fmt, files[ReportPath := g])
  }

  /** A run completes iff every courier it visits has no rows. */
  lemma {:induction false} RunDoneIff(ids: seq<Int64>, fetch: Int64 -> seq<CourierXLS>, fmt: Formatter, files: map<string, Grid>)
    ensures Run(ids, fetch, fmt, files).0.Done? <==> forall k :: 0 <= k < |ids| ==> fetch(ids[k]) == []
    decreases |ids|
  {
    if ids != [] {
      var g := ExportSheet(fetch(ids[0]), fmt).1;
      RunDoneIff(ids[1..], fetch, fmt, files[ReportPath := g]);
      assert forall k :: 1 <= k < |ids| ==> ids[k] == ids[1..][k - 1];
    }
  }

  /** The job writes no file but the report path. */
  lemma {:induction false} RunKeepsOtherFiles(ids: seq<Int64>, fetch: Int64 -> seq<CourierXLS>, fmt: Formatter,
                                              files: map<string, Grid>, path: string)
    requires path != ReportPath
    ensures path in Run(ids, fetch, fmt, files).1 <==> path in files
    ensures path in files ==> Run(ids, fetch, fmt, files).1[path] == files[path]
    decreases |ids|
  {
    if ids != [] {
      var g := ExportSheet(fetch(ids[0]), fmt).1;
      RunKeepsOtherFiles(ids[1..], fetch, fmt, files[ReportPath := g], path);
    }
  }

  /** Couriers are handled one after the other: running over `a + b` is
      running over `a` and, unless that panicked, then over `b`. */
  lemma {:induction false} RunAppend(a: seq<Int64>, b: seq<Int64>, fetch: Int64 -> seq<CourierXLS>, fmt: Formatter,
                                     files: map<string, Grid>)
    ensures var ra := Run(a, fetch, fmt, files);
      Run(a + b, fetch, fmt, files) == if ra.0.Panic? then ra else Run(b, fetch, fmt, ra.1)
    decreases |a|
  {
    if a == [] {
      assert a + b == b;
    } else {
      assert (a + b)[0] == a[0];
      assert (a + b)[1..] == a[1..] + b;
      var (o, g) := ExportSheet(fetch(a[0]), fmt);
      if o.Done? {
        RunAppend(a[1..], b, fetch, fmt, files[ReportPath := g]);
      }
    }
  }

  /** A run that completes leaves the report file as the last courier wrote
      it, which is the header alone; over no courier it changes nothing. */
  lemma {:induction false} RunDoneFiles(ids: seq<Int64>, fetch: Int64 -> seq<CourierXLS>, fmt: Formatter, files: map<string, Grid>)
    requires Run(ids, fetch, fmt, files).0.Done?
    ensures Run(ids, fetch, fmt, files).1 == if ids == [] then files else files[ReportPath := HeaderGrid()]
    decreases |ids|
  {
    if ids != [] {
      assert fetch(ids[0]) == [];
      RunDoneFiles(ids[1..], fetch, fmt, files[ReportPath := HeaderGrid()]);
    }
  }

  /** A run stops at the first courier with any rows, with that courier's
      panic; the report file then holds the header alone, or is untouched
      when that courier came first. */
  lemma {:induction false} RunStopsAtFirstNonEmpty(ids: seq<Int64>, fetch: Int64 -> seq<CourierXLS>, fmt: Formatter,
                                                   files: map<string, Grid>, k: nat)
    requires k < |ids| && fetch(ids[k]) != []
    requires forall j :: 0 <= j < k ==> fetch(ids[j]) == []
    ensures Run(ids, fetch, fmt, files).0 == ExportSheet(fetch(ids[k]), fmt).0
    ensures Run(ids, fetch, fmt, files).1 == if k == 0 then files else files[ReportPath := HeaderGrid()]
    decreases k
  {
    if k > 0 {
      assert fetch(ids[0]) == [];
      var files' := files[ReportPath := HeaderGrid()];
      assert ids[1..][k - 1] == ids[k];
      RunStopsAtFirstNonEmpty(ids[1..], fetch, fmt, files', k - 1);
      if k > 1 {
        assert files'[ReportPath := HeaderGrid()] == files';
      }
    }
  }

  /** The job's `main`: `couriers` is the `couriers` table and `fetch` the
      per-courier query on the `courier_exel` view, both as they stand. */
  method RunCourierReports(couriers: seq<Courier>, fetch: Int64 -> seq<CourierXLS>, fmt: Formatter, fs: FileSystem)
    returns (o: Outcome)
    modifies fs
    ensures (o, fs.files) == Run(ActiveIds(couriers), fetch, fmt, old(fs.files))
  {
    var ids := ActiveIds(couriers);
    for k := 0 to |ids|
      invariant Run(ids, fetch, fmt, old(fs.files)) == Run(ids[k..], fetch, fmt, fs.files)
    {
      var rows := fetch(ids[k]);
      var workbook := new Workbook(ReportPath);
      var sheet := workbook.AddWorksheet();
      WriteHeader(sheet);
      assert sheet.cells == HeaderGrid();
      o := FillRows(sheet, rows, fmt);
      assert ids[k..][0] == ids[k] && ids[k..][1..] == ids[k + 1..];
      if o.Panic? {
        return;
      }
      workbook.Close(fs);
    }
    o := Done;
  }
}
