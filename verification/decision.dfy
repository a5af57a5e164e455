/** DecisionService.decide: one outbox row per decision, in the same transaction. */
module Decision {
  import opened Events
  import opened Realtime
  import Batch
  import Cache = CampaignCache

  datatype AdRequest = AdRequest(
    adRequestId: Option<string>, preferCampaignId: Option<string>, forceNoFill: bool, maxDurationS: int)

  datatype Reason = Policy | NoCampaign | BudgetExhausted

  datatype AdResponse = AdResponse(
    adRequestId: string, fill: bool, noFillReason: Option<Reason>, campaign: Option<Cache.Campaign>, adDurationS: Option<int>)

  /** A row of `event_outbox`; its id is its place in the table. */
  datatype OutboxRow = OutboxRow(eventId: string, eventType: string, aggregateId: string, payload: Record)

  /** What the service draws for one decision: random numbers, fresh ids and the clock. */
  datatype Draws = Draws(fill: real, pick: real, index: nat, coin: bool, requestId: string, eventId: string, now: int)

  /** The campaign asked for if it is active, else a draw. */
  predicate Chosen(list: seq<Cache.Campaign>, req: AdRequest, d: Draws, c: Cache.Campaign)
  {
    if Cache.Active(list, req.preferCampaignId) then Cache.FirstWithId(list, req.preferCampaignId.value, c)
    else Cache.Drawn(list, d.pick, d.index, c)
  }

  /** The row says about the decision what the response says. */
  predicate Announces(row: OutboxRow, resp: AdResponse)
  {
    && row.eventType == row.payload.eventType == "ad_response"
    && row.eventId == row.payload.eventId
    && row.aggregateId == resp.adRequestId && row.payload.adRequestId == Some(resp.adRequestId)
    && row.payload.topic == Topic.AdRequest && row.payload.source == Some("server")
    && row.payload.quartile.None? && row.payload.twinOf.None?
    && row.payload.fill == Some(resp.fill)
    && row.payload.campaign == Some(if resp.campaign.Some? then resp.campaign.value.campaignId else "nofill")
    && (resp.fill <==> resp.campaign.Some?) && (resp.fill <==> resp.noFillReason.None?) && (resp.fill <==> resp.adDurationS.Some?)
  }

  /** The ids of the committed rows that announce a fill. */
  function FilledRows(table: seq<OutboxRow>): set<int>
  {
    set i | 0 <= i < |table| && table[i].payload.fill == Some(true)
  }

  predicate FreshIds(table: seq<OutboxRow>)
  {
    forall i, j :: 0 <= i < j < |table| ==> table[i].eventId != table[j].eventId
  }

  /** Every row is a decision, filled with a campaign or not. */
  ghost predicate Decided(table: seq<OutboxRow>)
  {
    forall row :: row in table ==> IsDecision(row)
  }

  ghost predicate IsDecision(row: OutboxRow)
  {
    exists resp :: Announces(row, resp)
  }

  lemma FilledAppend(table: seq<OutboxRow>, row: OutboxRow)
    ensures |FilledRows(table + [row])| == |FilledRows(table)| + if row.payload.fill == Some(true) then 1 else 0
  {
    assert FilledRows(table + [row]) ==
           if row.payload.fill == Some(true) then FilledRows(table) + {|table|} else FilledRows(table);
  }

  lemma DecidedAppend(table: seq<OutboxRow>, row: OutboxRow, resp: AdResponse)
    requires FreshIds(table) && Decided(table) && Announces(row, resp) && forall r :: r in table ==> r.eventId != row.eventId
    ensures FreshIds(table + [row]) && Decided(table + [row])
  {
    hide Announces;
    assert IsDecision(row);
    hide IsDecision;
  }

  class DecisionService {
    const campaigns: Cache.CampaignCache
    const noFillRate: real
    var outbox: seq<OutboxRow>
    var filled: nat
    var unfilled: nat

    constructor (campaigns: Cache.CampaignCache, noFillRate: real)
      ensures this.campaigns == campaigns && this.noFillRate == noFillRate
      ensures Valid() && outbox == [] && filled == 0 && unfilled == 0
    {
      this.campaigns, this.noFillRate := campaigns, noFillRate;
      outbox, filled, unfilled := [], 0, 0;
    }

    /** The fill counters count the rows, and no two rows share an event id. */
    ghost predicate Valid()
      reads this
    {
      && filled == |FilledRows(outbox)| && filled + unfilled == |outbox|
      && FreshIds(outbox) && Decided(outbox)
    }

    /** Which campaign fills the request: the one asked for if it is active, else a weighted draw. */
    method Choose(req: AdRequest, d: Draws) returns (c: Option<Cache.Campaign>)
      requires 0.0 <= d.pick < 1.0 && (campaigns.cache != [] ==> d.index < |campaigns.cache|)
      ensures c.Some? <==> !req.forceNoFill && d.fill >= noFillRate && campaigns.cache != []
      ensures c.Some? ==> Chosen(campaigns.cache, req, d, c.value)
    {
      hide Cache.Drawn, Cache.FirstWithId, Cache.Active;
      if req.forceNoFill || d.fill < noFillRate {
        return None;
      }
      c := campaigns.ById(req.preferCampaignId);
      if c.None? {
        c := campaigns.Pick(d.pick, d.index);
      }
    }

    method Decide(req: AdRequest, d: Draws) returns (resp: AdResponse)
      requires Valid()
      requires 0.0 <= d.pick < 1.0 && (campaigns.cache != [] ==> d.index < |campaigns.cache|)
      requires forall row :: row in outbox ==> row.eventId != d.eventId
      modifies this
      ensures Valid()
      ensures |outbox| == |old(outbox)| + 1 && outbox[..|old(outbox)|] == old(outbox)
      ensures Announces(outbox[|old(outbox)|], resp) && outbox[|old(outbox)|].eventId == d.eventId
      ensures var row := outbox[|old(outbox)|];
              && row.eventType == "ad_response" && row.aggregateId == resp.adRequestId && row.payload.adRequestId == Some(resp.adRequestId)
              && row.payload.fill == Some(resp.fill) && resp.fill == resp.campaign.Some?
              && row.payload.campaign == Some(if resp.fill then resp.campaign.value.campaignId else "nofill")
      ensures resp.fill <==> !req.forceNoFill && d.fill >= noFillRate && campaigns.cache != []
      ensures resp.fill ==> Chosen(campaigns.cache, req, d, resp.campaign.value)
      ensures outbox[|old(outbox)|].payload.eventTime == d.now
      ensures resp.fill ==> resp.adDurationS == Some(if req.maxDurationS >= 30 && d.coin then 30 else 15)
      ensures resp.noFillReason == Some(Policy) <==> req.forceNoFill
      ensures resp.noFillReason == Some(NoCampaign) <==> !req.forceNoFill && campaigns.cache == []
      ensures resp.adRequestId == if req.adRequestId.Some? then req.adRequestId.value else d.requestId
      ensures filled == old(filled) + (if resp.fill then 1 else 0) && unfilled == old(unfilled) + if resp.fill then 0 else 1
    {
      var arid := if req.adRequestId.Some? then req.adRequestId.value else d.requestId;
      var campaign := Choose(req, d);
      hide Chosen;
      var isFilled := campaign.Some?;
      var reason := if isFilled then None
                    else if req.forceNoFill then Some(Policy)
                    else if campaigns.cache == [] then Some(NoCampaign)
                    else Some(BudgetExhausted);
      var duration := if isFilled then Some(if req.maxDurationS >= 30 && d.coin then 30 else 15) else None;
      var payload := Record(Topic.AdRequest, d.eventId, "ad_response",
                            Some(if campaign.Some? then campaign.value.campaignId else "nofill"),
                            Some(arid), Some("server"), None, Some(isFilled), None, d.now, "");
      var row := OutboxRow(d.eventId, "ad_response", arid, payload);
      resp := AdResponse(arid, isFilled, reason, campaign, duration);
      assert Announces(row, resp);
      hide Announces;
      FilledAppend(outbox, row);
      DecidedAppend(outbox, row, resp);
      hide FilledRows, FreshIds, Decided;
      outbox := outbox + [row];
      if isFilled {
        filled := filled + 1;
      } else {
        unfilled := unfilled + 1;
      }
    }
  }

  /** The stream counts a decision as a request exactly when it was filled, by a campaign that is not
      called `nofill`; the settlement also leaves out campaigns called `none` and `pending`. */
  lemma FillIsRequest(row: OutboxRow, resp: AdResponse)
    requires Announces(row, resp)
    ensures AllEvents(row.payload).Some? <==> resp.fill && resp.campaign.value.campaignId != "nofill"
    ensures AllEvents(row.payload).Some? ==>
              AllEvents(row.payload).value.kind == Request && AllEvents(row.payload).value.id == row.eventId
    ensures Batch.Is(Batch.Requests, Batch.Columns(row.payload)) <==> resp.fill && resp.campaign.value.campaignId !in Batch.NON_CAMPAIGN
  {
  }
}
