/**
  Registering the webhooks of a workflow (packages/cli/src/active-workflow-manager.ts) in the webhook table
  (packages/cli/src/webhooks/webhook.service.ts), which replaces a row of the same method and path.
 */
module Webhooks {
  import opened Options

  datatype Key = Key(httpMethod: string, path: string)
  datatype Row = Row(workflowId: string, node: string, webhookId: Option<string>, pathLength: Option<nat>)
  type Rows = map<Key, Row>

  /** A webhook of a workflow, with the `webhookId` of its node. */
  datatype WebhookData = WebhookData(httpMethod: string, path: string, node: string, nodeWebhookId: Option<string>)

  /** What the awaited calls for one webhook do. `queryFailed` tells a database error from any other. */
  datatype Attempt = Succeeds | StoreFails(queryFailed: bool) | CreateFails(queryFailed: bool)

  // ---- The row of a webhook --------------------------------------------------------------------------------

  /** One slash is cut off either end. */
  function Trimmed(path: string): string {
    var p := if |path| > 0 && path[0] == '/' then path[1..] else path;
    if |p| > 0 && p[|p| - 1] == '/' then p[..|p| - 1] else p
  }

  /** `path.includes('/:')` */
  predicate HasParameter(path: string) {
    exists i :: 0 <= i < |path| - 1 && path[i] == '/' && path[i + 1] == ':'
  }

  predicate IsDynamic(path: string) {
    (|path| > 0 && path[0] == ':') || HasParameter(path)
  }

  /** `path.split('/').length` */
  function Segments(path: string): nat {
    if path == "" then 1 else (if path[0] == '/' then 1 else 0) + Segments(path[1..])
  }

  function KeyOf(w: WebhookData): Key {
    Key(w.httpMethod, Trimmed(w.path))
  }

  function RowOf(workflowId: string, w: WebhookData): Row {
    if IsDynamic(w.path) && w.nodeWebhookId.Some? && w.nodeWebhookId.value != "" then
      Row(workflowId, w.node, w.nodeWebhookId, Some(Segments(Trimmed(w.path))))
    else
      Row(workflowId, w.node, None, None)
  }

  /** What is cut off: a slash in front if there is one, then one at the end if there still is one. */
  lemma TrimmedMeaning(path: string)
    ensures exists front, back ::
      && path == front + Trimmed(path) + back
      && (front == "/" || (front == "" && (path == "" || path[0] != '/')))
      && (back == "/" || (back == "" && (Trimmed(path) == "" || Trimmed(path)[|Trimmed(path)| - 1] != '/')))
  {
    var front := if |path| > 0 && path[0] == '/' then "/" else "";
    var p := path[|front|..];
    var back := if |p| > 0 && p[|p| - 1] == '/' then "/" else "";
    assert path == front + p && p == Trimmed(path) + back;
    assert path == front + Trimmed(path) + back;
  }

  lemma {:induction false} SegmentsMeaning(path: string)
    ensures Segments(path) == multiset(path)['/'] + 1
    decreases |path|
  {
    if path != "" {
      SegmentsMeaning(path[1..]);
      assert path == [path[0]] + path[1..];
    }
  }

  /**
    The row stands under the method and the trimmed path, and names the workflow and the node. It has the id of the
    node and the number of segments, which is one more than that of slashes, exactly when the path starts with a colon
    or has one after a slash and the node has an id.
   */
  lemma RowMeaning(workflowId: string, w: WebhookData)
    ensures var row := RowOf(workflowId, w);
            && KeyOf(w) == Key(w.httpMethod, Trimmed(w.path))
            && row.workflowId == workflowId && row.node == w.node
            && (row.webhookId.Some? <==>
                  && w.nodeWebhookId.Some? && w.nodeWebhookId != Some("")
                  && (":" <= w.path || exists i :: 0 <= i < |w.path| - 1 && w.path[i] == '/' && w.path[i + 1] == ':'))
            && (row.webhookId.Some? ==>
                  && row.webhookId == w.nodeWebhookId
                  && row.pathLength == Some(multiset(KeyOf(w).path)['/'] + 1))
            && (row.webhookId == None ==> row.pathLength == None)
  {
    SegmentsMeaning(KeyOf(w).path);
    assert ":" <= w.path <==> |w.path| > 0 && w.path[0] == ':';
  }

  // ---- addWebhooks -----------------------------------------------------------------------------------------

  function StoredAfter(rows: Rows, workflowId: string, w: WebhookData, attempt: Attempt): Rows {
    if attempt.StoreFails? then rows else rows[KeyOf(w) := RowOf(workflowId, w)]
  }

  /** In `init` mode database errors are passed over. */
  predicate Throws(attempt: Attempt, init: bool) {
    !attempt.Succeeds? && !(init && attempt.queryFailed)
  }

  /** `deleteWorkflowWebhooks` */
  function Cleared(rows: Rows, workflowId: string): Rows {
    map k | k in rows && rows[k].workflowId != workflowId :: rows[k]
  }

  /**
    The table after the loop of `addWebhooks`, and whether it threw. `script` says what happens for each webhook,
    `clears` whether
    the roll-back succeeds.
   */
  function AddAll(rows: Rows, workflowId: string, webhooks: seq<WebhookData>, script: seq<Attempt>, init: bool,
                  clears: bool): (Rows, bool)
    requires |script| == |webhooks|
    decreases |webhooks|
  {
    if webhooks == [] then (rows, false)
    else
      var stored := StoredAfter(rows, workflowId, webhooks[0], script[0]);
      if Throws(script[0], init) then (if clears then Cleared(stored, workflowId) else stored, true)
      else AddAll(stored, workflowId, webhooks[1..], script[1..], init, clears)
  }

  /** With `saved` false, a webhook cache or static data that cannot be written makes the call throw after the loop. */
  function AddWebhooks(rows: Rows, workflowId: string, webhooks: seq<WebhookData>, script: seq<Attempt>, saved: bool,
                       init: bool, clears: bool): (Rows, bool)
    requires |script| == |webhooks|
  {
    var (after, threw) := AddAll(rows, workflowId, webhooks, script, init, clears);
    (after, threw || (webhooks != [] && !saved))
  }

  /** Some attempt ends the loop. */
  predicate Breaks(script: seq<Attempt>, init: bool) {
    exists i :: 0 <= i < |script| && Throws(script[i], init)
  }

  lemma {:induction false} ThrowsIffBreaks(rows: Rows, workflowId: string, webhooks: seq<WebhookData>,
                                           script: seq<Attempt>,
                                           init: bool, clears: bool)
    requires |script| == |webhooks|
    ensures AddAll(rows, workflowId, webhooks, script, init, clears).1 <==> Breaks(script, init)
    decreases |webhooks|
  {
    if webhooks != [] {
      var stored := StoredAfter(rows, workflowId, webhooks[0], script[0]);
      ThrowsIffBreaks(stored, workflowId, webhooks[1..], script[1..], init, clears);
      BreaksLater(script, init);
    }
  }

  lemma BreaksLater(script: seq<Attempt>, init: bool)
    requires script != []
    ensures Breaks(script, init) <==> Throws(script[0], init) || Breaks(script[1..], init)
  {
    if i :| 0 <= i < |script| && Throws(script[i], init) {
      assert i > 0 ==> script[1..][i - 1] == script[i];
    }
    if i :| 0 <= i < |script[1..]| && Throws(script[1..][i], init) {
      assert script[i + 1] == script[1..][i];
    }
  }

  // ---- All or nothing --------------------------------------------------------------------------------------

  ghost predicate NoRows(rows: Rows, workflowId: string) {
    forall k :: k in rows ==> rows[k].workflowId != workflowId
  }

  ghost predicate AllStored(rows: Rows, workflowId: string, webhooks: seq<WebhookData>) {
    forall w :: w in webhooks ==> KeyOf(w) in rows && rows[KeyOf(w)].workflowId == workflowId
  }

  /** The rows of other workflows are the same in both tables. */
  ghost predicate OthersSame(before: Rows, after: Rows, workflowId: string) {
    forall k ::
      && (k in before && before[k].workflowId != workflowId ==> k in after && after[k] == before[k])
      && (k in after && after[k].workflowId != workflowId ==> k in before && after[k] == before[k])
  }

  /** A webhook uses the method and path of another workflow. */
  ghost predicate Collides(rows: Rows, workflowId: string, webhooks: seq<WebhookData>) {
    exists w :: w in webhooks && KeyOf(w) in rows && rows[KeyOf(w)].workflowId != workflowId
  }

  lemma {:induction false} KeysStay(rows: Rows, workflowId: string, webhooks: seq<WebhookData>, script: seq<Attempt>,
                                    init: bool, clears: bool, k: Key)
    requires |script| == |webhooks| && k in rows && rows[k].workflowId == workflowId
    requires !AddAll(rows, workflowId, webhooks, script, init, clears).1
    ensures var after := AddAll(rows, workflowId, webhooks, script, init, clears).0;
            k in after && after[k].workflowId == workflowId
    decreases |webhooks|
  {
    if webhooks != [] {
      KeysStay(StoredAfter(rows, workflowId, webhooks[0], script[0]), workflowId, webhooks[1..], script[1..],
               init, clears, k);
    }
  }

  lemma {:induction false} StoredOnReturn(rows: Rows, workflowId: string, webhooks: seq<WebhookData>,
                                          script: seq<Attempt>, clears: bool)
    requires |script| == |webhooks| && !Breaks(script, false)
    ensures AllStored(AddAll(rows, workflowId, webhooks, script, false, clears).0, workflowId, webhooks)
    decreases |webhooks|
  {
    if webhooks != [] {
      var stored := StoredAfter(rows, workflowId, webhooks[0], script[0]);
      BreaksLater(script, false);
      StoredOnReturn(stored, workflowId, webhooks[1..], script[1..], clears);
      ThrowsIffBreaks(stored, workflowId, webhooks[1..], script[1..], false, clears);
      KeysStay(stored, workflowId, webhooks[1..], script[1..], false, clears, KeyOf(webhooks[0]));
      var after := AddAll(rows, workflowId, webhooks, script, false, clears).0;
      forall w | w in webhooks ensures KeyOf(w) in after && after[KeyOf(w)].workflowId == workflowId {
        assert w == webhooks[0] || w in webhooks[1..];
      }
    }
  }

  lemma {:induction false} NoneOnBreak(rows: Rows, workflowId: string, webhooks: seq<WebhookData>,
                                       script: seq<Attempt>, init: bool)
    requires |script| == |webhooks| && Breaks(script, init)
    ensures NoRows(AddAll(rows, workflowId, webhooks, script, init, true).0, workflowId)
    decreases |webhooks|
  {
    BreaksLater(script, init);
    if !Throws(script[0], init) {
      NoneOnBreak(StoredAfter(rows, workflowId, webhooks[0], script[0]), workflowId, webhooks[1..], script[1..], init);
    }
  }

  /**
    Outside `init` mode, with a roll-back that succeeds: if no attempt fails, every webhook has a row of the workflow;
    a throw leaves none exactly when an attempt failed, and all of them when only the writes after the loop did.
   */
  lemma AllOrNothing(rows: Rows, workflowId: string, webhooks: seq<WebhookData>, script: seq<Attempt>, saved: bool)
    requires |script| == |webhooks|
    ensures var (after, threw) := AddWebhooks(rows, workflowId, webhooks, script, saved, false, true);
            var failed := exists i :: 0 <= i < |script| && !script[i].Succeeds?;
            && (threw <==> failed || (webhooks != [] && !saved))
            && (!failed ==> AllStored(after, workflowId, webhooks))
            && (threw ==> (NoRows(after, workflowId) <==> failed))
  {
    ThrowsIffBreaks(rows, workflowId, webhooks, script, false, true);
    if Breaks(script, false) {
      NoneOnBreak(rows, workflowId, webhooks, script, false);
    } else {
      StoredOnReturn(rows, workflowId, webhooks, script, true);
      assert webhooks != [] ==> webhooks[0] in webhooks;
    }
  }

  /** The loop comes to the webhook `i` and stores it. */
  predicate Stores(script: seq<Attempt>, init: bool, i: nat) {
    i < |script| && !script[i].StoreFails? && forall j :: 0 <= j < i ==> !Throws(script[j], init)
  }

  predicate StoresSome(script: seq<Attempt>, init: bool) {
    exists i: nat :: i < |script| && Stores(script, init, i)
  }

  lemma StoresNext(script: seq<Attempt>, init: bool, i: nat)
    requires 0 < i < |script|
    ensures Stores(script, init, i) <==> !Throws(script[0], init) && Stores(script[1..], init, i - 1)
  {
    assert forall j :: 0 <= j < |script| - 1 ==> script[1..][j] == script[j + 1];
    if !Throws(script[0], init) && Stores(script[1..], init, i - 1) {
      forall j | 0 <= j < i ensures !Throws(script[j], init) {
        assert j > 0 ==> script[1..][j - 1] == script[j];
      }
    }
  }

  lemma StoresLater(script: seq<Attempt>, init: bool)
    requires script != [] && script[0].StoreFails?
    ensures StoresSome(script, init) <==> !Throws(script[0], init) && StoresSome(script[1..], init)
  {
    if i: nat :| i < |script| && Stores(script, init, i) {
      StoresNext(script, init, i);
    }
    if i: nat :| i < |script[1..]| && Stores(script[1..], init, i) {
      StoresNext(script, init, i + 1);
    }
  }

  lemma {:induction false} RowStays(rows: Rows, workflowId: string, webhooks: seq<WebhookData>, script: seq<Attempt>,
                                    init: bool,
                                    clears: bool, k: Key)
    requires |script| == |webhooks| && k in rows && rows[k].workflowId == workflowId
    requires clears ==> !Breaks(script, init)
    ensures !NoRows(AddAll(rows, workflowId, webhooks, script, init, clears).0, workflowId)
    decreases |webhooks|
  {
    if webhooks != [] {
      BreaksLater(script, init);
      var stored := StoredAfter(rows, workflowId, webhooks[0], script[0]);
      assert k in stored && stored[k].workflowId == workflowId;
      if !Throws(script[0], init) {
        RowStays(stored, workflowId, webhooks[1..], script[1..], init, clears, k);
      }
    }
  }

  /**
    A workflow without rows has some afterwards exactly when one was stored and the loop went through or was not
    rolled back.
   */
  lemma {:induction false} RowsLeftIff(rows: Rows, workflowId: string, webhooks: seq<WebhookData>,
                                       script: seq<Attempt>, init: bool, clears: bool)
    requires |script| == |webhooks| && NoRows(rows, workflowId)
    ensures !NoRows(AddAll(rows, workflowId, webhooks, script, init, clears).0, workflowId)
       <==> StoresSome(script, init) && (clears ==> !Breaks(script, init))
    decreases |webhooks|
  {
    if clears && Breaks(script, init) {
      NoneOnBreak(rows, workflowId, webhooks, script, init);
    } else if webhooks != [] {
      var stored := StoredAfter(rows, workflowId, webhooks[0], script[0]);
      BreaksLater(script, init);
      if script[0].StoreFails? {
        StoresLater(script, init);
        if !Throws(script[0], init) {
          RowsLeftIff(rows, workflowId, webhooks[1..], script[1..], init, clears);
        }
      } else {
        assert Stores(script, init, 0);
        assert KeyOf(webhooks[0]) in stored && stored[KeyOf(webhooks[0])].workflowId == workflowId;
        if !Throws(script[0], init) {
          RowStays(stored, workflowId, webhooks[1..], script[1..], init, clears, KeyOf(webhooks[0]));
        }
      }
    }
  }

  /** The last of the webhooks that share a method and path decides the row. */
  lemma {:induction false} LastRowWins(rows: Rows, workflowId: string, webhooks: seq<WebhookData>,
                                       script: seq<Attempt>, init: bool, i: nat)
    requires |script| == |webhooks| && i < |webhooks|
    requires forall j :: 0 <= j < |script| ==> script[j].Succeeds?
    requires forall j :: i < j < |webhooks| ==> KeyOf(webhooks[j]) != KeyOf(webhooks[i])
    ensures var after := AddAll(rows, workflowId, webhooks, script, init, true).0;
            KeyOf(webhooks[i]) in after && after[KeyOf(webhooks[i])] == RowOf(workflowId, webhooks[i])
    decreases |webhooks|
  {
    var stored := StoredAfter(rows, workflowId, webhooks[0], script[0]);
    if i > 0 {
      LastRowWins(stored, workflowId, webhooks[1..], script[1..], init, i - 1);
    } else {
      OtherKeysStay(stored, workflowId, webhooks[1..], script[1..], init, KeyOf(webhooks[0]));
    }
  }

  lemma {:induction false} OtherKeysStay(rows: Rows, workflowId: string, webhooks: seq<WebhookData>,
                                         script: seq<Attempt>, init: bool, k: Key)
    requires |script| == |webhooks| && k in rows
    requires forall j :: 0 <= j < |script| ==> script[j].Succeeds?
    requires forall j :: 0 <= j < |webhooks| ==> KeyOf(webhooks[j]) != k
    ensures var after := AddAll(rows, workflowId, webhooks, script, init, true).0;
            k in after && after[k] == rows[k]
    decreases |webhooks|
  {
    if webhooks != [] {
      OtherKeysStay(StoredAfter(rows, workflowId, webhooks[0], script[0]), workflowId, webhooks[1..], script[1..],
               init, k);
    }
  }

  // ---- Other workflows -------------------------------------------------------------------------------------

  lemma {:induction false} NoCollisionKeepsOthers(rows: Rows, workflowId: string, webhooks: seq<WebhookData>,
                                                  script: seq<Attempt>, init: bool, clears: bool)
    requires |script| == |webhooks| && !Collides(rows, workflowId, webhooks)
    ensures OthersSame(rows, AddAll(rows, workflowId, webhooks, script, init, clears).0, workflowId)
    decreases |webhooks|
  {
    if webhooks != [] {
      var stored := StoredAfter(rows, workflowId, webhooks[0], script[0]);
      assert webhooks[0] in webhooks;
      assert OthersSame(rows, stored, workflowId);
      if !Throws(script[0], init) {
        assert !Collides(stored, workflowId, webhooks[1..]) by {
          forall w | w in webhooks[1..] && KeyOf(w) in stored ensures stored[KeyOf(w)].workflowId == workflowId {
            assert w in webhooks;
          }
        }
        NoCollisionKeepsOthers(stored, workflowId, webhooks[1..], script[1..], init, clears);
      }
    }
  }

  /**
    Rows of other workflows stay as they are, whatever fails, exactly when no webhook uses a method and path of
    theirs: the table does not refuse such a row but replaces it.
   */
  lemma OthersSameIffNoCollision(rows: Rows, workflowId: string, webhooks: seq<WebhookData>, init: bool)
    ensures (forall script: seq<Attempt>, clears :: |script| == |webhooks|
              ==> OthersSame(rows, AddAll(rows, workflowId, webhooks, script, init, clears).0, workflowId))
       <==> !Collides(rows, workflowId, webhooks)
  {
    if Collides(rows, workflowId, webhooks) {
      var w :| w in webhooks && KeyOf(w) in rows && rows[KeyOf(w)].workflowId != workflowId;
      var script := seq(|webhooks|, i => Succeeds);
      AllSucceeding(rows, workflowId, webhooks, script, init);
      var after := AddAll(rows, workflowId, webhooks, script, init, true).0;
      assert after[KeyOf(w)].workflowId == workflowId;
      assert !OthersSame(rows, after, workflowId);
    } else {
      forall script: seq<Attempt>, clears | |script| == |webhooks|
        ensures OthersSame(rows, AddAll(rows, workflowId, webhooks, script, init, clears).0, workflowId) {
        NoCollisionKeepsOthers(rows, workflowId, webhooks, script, init, clears);
      }
    }
  }

  lemma {:induction false} AllSucceeding(rows: Rows, workflowId: string, webhooks: seq<WebhookData>,
                                         script: seq<Attempt>, init: bool)
    requires |script| == |webhooks| && forall j :: 0 <= j < |script| ==> script[j].Succeeds?
    ensures var (after, threw) := AddAll(rows, workflowId, webhooks, script, init, true);
            !threw && AllStored(after, workflowId, webhooks)
    decreases |webhooks|
  {
    if webhooks != [] {
      var stored := StoredAfter(rows, workflowId, webhooks[0], script[0]);
      AllSucceeding(stored, workflowId, webhooks[1..], script[1..], init);
      var after := AddAll(rows, workflowId, webhooks, script, init, true).0;
      KeysStay(stored, workflowId, webhooks[1..], script[1..], init, true, KeyOf(webhooks[0]));
      forall w | w in webhooks ensures KeyOf(w) in after && after[KeyOf(w)].workflowId == workflowId {
        assert w == webhooks[0] || w in webhooks[1..];
      }
    }
  }

  /** A webhook with this method and path is stored, at or before the attempt that ends the loop. */
  predicate Takes(webhooks: seq<WebhookData>, script: seq<Attempt>, init: bool, k: Key)
    requires |script| == |webhooks|
  {
    exists i: nat :: i < |webhooks| && KeyOf(webhooks[i]) == k && Stores(script, init, i)
  }

  lemma TakesLater(webhooks: seq<WebhookData>, script: seq<Attempt>, init: bool, k: Key)
    requires |script| == |webhooks| && webhooks != []
    requires KeyOf(webhooks[0]) != k || script[0].StoreFails?
    ensures Takes(webhooks, script, init, k) <==> !Throws(script[0], init) && Takes(webhooks[1..], script[1..], init, k)
  {
    if i: nat :| i < |webhooks| && KeyOf(webhooks[i]) == k && Stores(script, init, i) {
      StoresNext(script, init, i);
      assert webhooks[1..][i - 1] == webhooks[i];
    }
    if i: nat :| i < |webhooks[1..]| && KeyOf(webhooks[1..][i]) == k && Stores(script[1..], init, i) {
      StoresNext(script, init, i + 1);
      assert webhooks[i + 1] == webhooks[1..][i];
    }
  }

  /** Once a row is the workflow's own, it stays so until a roll-back drops it. */
  lemma {:induction false} OwnRowEnds(rows: Rows, workflowId: string, webhooks: seq<WebhookData>,
                                      script: seq<Attempt>, init: bool,
                                      clears: bool, k: Key)
    requires |script| == |webhooks| && k in rows && rows[k].workflowId == workflowId
    ensures var after := AddAll(rows, workflowId, webhooks, script, init, clears).0;
            && (k in after <==> !(clears && Breaks(script, init)))
            && (k in after ==> after[k].workflowId == workflowId)
    decreases |webhooks|
  {
    if webhooks != [] {
      BreaksLater(script, init);
      if !Throws(script[0], init) {
        OwnRowEnds(StoredAfter(rows, workflowId, webhooks[0], script[0]), workflowId, webhooks[1..], script[1..],
                   init, clears, k);
      }
    }
  }

  /**
    The row of another workflow is taken exactly when a webhook with its method and path is stored at or before the
    first attempt that throws; it is then lost for good exactly when an attempt throws and is rolled back.
   */
  lemma {:induction false} RowTakenIff(rows: Rows, workflowId: string, webhooks: seq<WebhookData>,
                                       script: seq<Attempt>, init: bool,
                                       clears: bool, k: Key)
    requires |script| == |webhooks| && k in rows && rows[k].workflowId != workflowId
    ensures var after := AddAll(rows, workflowId, webhooks, script, init, clears).0;
            && (k in after && after[k] == rows[k] <==> !Takes(webhooks, script, init, k))
            && (k !in after <==> Takes(webhooks, script, init, k) && clears && Breaks(script, init))
            && (k in after && Takes(webhooks, script, init, k) ==> after[k].workflowId == workflowId)
    decreases |webhooks|
  {
    if webhooks != [] {
      var stored := StoredAfter(rows, workflowId, webhooks[0], script[0]);
      BreaksLater(script, init);
      if KeyOf(webhooks[0]) == k && !script[0].StoreFails? {
        assert Takes(webhooks, script, init, k);
        if !Throws(script[0], init) {
          OwnRowEnds(stored, workflowId, webhooks[1..], script[1..], init, clears, k);
        }
      } else {
        TakesLater(webhooks, script, init, k);
        if !Throws(script[0], init) {
          RowTakenIff(stored, workflowId, webhooks[1..], script[1..], init, clears, k);
        }
      }
    }
  }

  // ---- Start-up --------------------------------------------------------------------------------------------

  /** The rows that a start-up with this script writes. */
  ghost function Written(workflowId: string, webhooks: seq<WebhookData>, script: seq<Attempt>): Rows
    requires |script| == |webhooks|
    decreases |webhooks|
  {
    if webhooks == [] then map[]
    else StoredAfter(map[], workflowId, webhooks[0], script[0]) + Written(workflowId, webhooks[1..], script[1..])
  }

  /**
    In `init` mode, when only database errors occur, nothing is thrown: rows are written over the table as far as the
    database lets them, and no key disappears.
   */
  lemma {:induction false} InitWrites(rows: Rows, workflowId: string, webhooks: seq<WebhookData>,
                                      script: seq<Attempt>, clears: bool)
    requires |script| == |webhooks|
    requires forall i :: 0 <= i < |script| ==> script[i].Succeeds? || script[i].queryFailed
    ensures AddAll(rows, workflowId, webhooks, script, true, clears)
         == (rows + Written(workflowId, webhooks, script), false)
    decreases |webhooks|
  {
    if webhooks != [] {
      var stored := StoredAfter(rows, workflowId, webhooks[0], script[0]);
      assert forall i :: 0 <= i < |script| - 1 ==> script[1..][i] == script[i + 1];
      InitWrites(stored, workflowId, webhooks[1..], script[1..], clears);
      var first, rest := StoredAfter(map[], workflowId, webhooks[0], script[0]),
          Written(workflowId, webhooks[1..], script[1..]);
      assert stored == rows + first;
      PlusAssociative(rows, first, rest);
    } else {
      assert rows + map[] == rows;
    }
  }

  /**
    Hence a second start-up that meets the same errors leaves the table as the first did, and every old key is still
    there.
   */
  lemma InitTwice(rows: Rows, workflowId: string, webhooks: seq<WebhookData>, script: seq<Attempt>, clears: bool)
    requires |script| == |webhooks|
    requires forall i :: 0 <= i < |script| ==> script[i].Succeeds? || script[i].queryFailed
    ensures var (once, threw) := AddAll(rows, workflowId, webhooks, script, true, clears);
            && !threw && AddAll(once, workflowId, webhooks, script, true, clears) == (once, false)
            && rows.Keys <= once.Keys
            && (!Collides(rows, workflowId, webhooks) ==> OthersSame(rows, once, workflowId))
  {
    InitWrites(rows, workflowId, webhooks, script, clears);
    var written := Written(workflowId, webhooks, script);
    InitWrites(rows + written, workflowId, webhooks, script, clears);
    assert (rows + written) + written == rows + written;
    if !Collides(rows, workflowId, webhooks) {
      NoCollisionKeepsOthers(rows, workflowId, webhooks, script, true, clears);
    }
  }
}
