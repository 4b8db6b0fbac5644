/** The service objects under an arbitrary scheduler: their runs are exactly the protocol's runs. */
module FundingSystem {
  import opened Texts
  import opened FundingRows
  import opened Intake
  import opened Registration
  import opened Eligibility
  import opened BankFunding
  import opened LeaseFunding
  import opened FundingContext
  import opened FundingProtocol
  import IntakeService
  import RegistrationService
  import EligibilityService
  import BankFundingService
  import LeaseService
  import TenantContributionService

  class System {
    const cfg: Config
    const context: DbContext
    const intake: IntakeService.CreditApplicationService
    const registration: RegistrationService.PropertyContractRegistrationService
    const eligibility: EligibilityService.CreditEligibilityService
    const bank: BankFundingService.BankFundingService
    const lease: LeaseService.LeaseFundingLifecycleService
    const tenant: TenantContributionService.TenantContributionFundingService
    /** Calls waiting for an adapter or between two of their transactions. */
    var procs: map<nat, Proc>
    ghost var received: set<Evidence>
    ghost var faults: set<Fault>

    ghost predicate Valid()
      reads this
    {
      && intake.cfg == registration.cfg == eligibility.cfg == bank.cfg == lease.cfg == tenant.cfg == cfg
      && intake.context == registration.context == eligibility.context == context
      && bank.context == lease.context == tenant.context == context
    }

    ghost function Abstraction(): World
      reads this, context
    {
      World(context.rows, procs, received, faults)
    }

    constructor (cfg: Config)
      ensures Valid() && this.cfg == cfg && fresh(context) && Abstraction() == INITIAL
    {
      this.cfg := cfg;
      var session := new DbContext();
      context := session;
      intake := new IntakeService.CreditApplicationService(cfg, session);
      registration := new RegistrationService.PropertyContractRegistrationService(cfg, session);
      eligibility := new EligibilityService.CreditEligibilityService(cfg, session);
      bank := new BankFundingService.BankFundingService(cfg, session);
      lease := new LeaseService.LeaseFundingLifecycleService(cfg, session);
      tenant := new TenantContributionService.TenantContributionFundingService(cfg, session);
      procs, received, faults := map[], {}, {};
    }

    method StartCall(call: Call, freshId: Guid, otherId: Guid) returns (end: End)
      requires Valid()
      modifies context
      ensures var tx := Begin(cfg, old(context.rows), call, freshId, otherId);
              end == EndOf(tx) && context.rows == After(old(context.rows), tx)
    {
      hide Submit, SelectPlan, IdentityStart, ContractStart, GradeStart, BankStart, ContributionStart, AdvanceStart;
      match call
      case SubmitCall(user) => end := intake.SubmitAsync(user);
      case PlanCall(user, planId, version, published) =>
        end := intake.SelectBankLoanPlanAsync(user, planId, version, published);
      case IdentityCall => end := intake.StartIdentity(freshId);
      case ContractCall(user) => end := registration.Start(user, freshId);
      case GradeCall(user) => end := eligibility.Start(user, freshId);
      case BankCall(user) => end := bank.Start(user, freshId);
      case ContributionCall => end := tenant.Start(freshId, otherId);
      case AdvanceCall => end := lease.LockContract();
    }

    method ResumeCall(proc: Proc, answer: Answer, freshId: Guid) returns (end: End)
      requires Valid() && Awaits(proc, answer)
      modifies context
      ensures var tx := Proceed(cfg, old(context.rows), proc, answer, freshId);
              end == EndOf(tx) && context.rows == After(old(context.rows), tx)
    {
      hide IdentityAnswer, ContractAnswer, Capture, Finalize, GradeAnswer, BankAnswer, AllocationRead, FreezeStart,
           FreezeAnswer, ContributionAnswer, AdvanceNext;
      match proc
      case IdentityAsking(id) => end := intake.ApplyIdentity(id, answer.identity);
      case ContractAsking(id, plan) =>
        end := registration.ApplyAnswer(id, plan, answer.evidence, answer.ownerExists, freshId);
      case ContractCapturing(id, contractId, e) => end := registration.CaptureTerms(id, contractId, e);
      case ContractFinalizing(id, contractId, snapshot) =>
        end := registration.FinalizeRegistration(id, contractId, snapshot);
      case GradeAsking(id) => end := eligibility.ApplyGrade(id, answer.grade);
      case BankAsking(capture) => end := bank.ApplyBankResult(capture, answer.bank, freshId);
      case AllocationReading(contractId) => end := bank.ReadAllocation(contractId);
      case FreezeStarting(contractId, al) => end := bank.RequestFreeze(contractId, al, freshId);
      case FreezeAsking(contractId, al, freezeId) =>
        end := bank.ApplyFreezeResult(contractId, al, freezeId, answer.freeze);
      case ContributionAsking(contractId, al, fundingId, transferId) =>
        end := tenant.ApplyResult(contractId, al, fundingId, transferId, answer.contribution);
      case Advancing(seen, tables) => end := lease.AdvanceAsync(seen, tables);
    }

    /** Whether the database makes this call wait for the lease row. */
    predicate Waits(pid: nat, answer: Answer, freshId: Guid)
      requires Valid() && pid in procs && Awaits(procs[pid], answer)
      reads this, context
      ensures Waits(pid, answer, freshId) == ResumeWaits(cfg, Abstraction(), pid, answer, freshId)
    {
      LeaseHeld(procs)
      && (procs[pid].ContractCapturing?
          || Refers(context.rows, Proceed(cfg, context.rows, procs[pid], answer, freshId)))
    }

    /** One event of the scheduler does to the objects what the protocol's step says. */
    method Handle(e: Event)
      requires Valid()
      modifies this, context
      ensures Valid() && Abstraction() == Step(cfg, old(Abstraction()), e)
    {
      hide Begin, Proceed, ValidateEvidence;
      match e
      case Start(pid, call, freshId, otherId) =>
        if pid !in procs && freshId != 0 && otherId != 0 && !StartWaits(procs, call) {
          var end := StartCall(call, freshId, otherId);
          Finish(pid, end);
        }
      case Resume(pid, answer, freshId) =>
        if pid in procs && Awaits(procs[pid], answer) && freshId != 0 && !Waits(pid, answer, freshId) {
          received := received + Heard(cfg, answer);
          var end := ResumeCall(procs[pid], answer, freshId);
          Finish(pid, end);
        }
      case Crash(pid) =>
        procs := procs - {pid};
    }

    method Finish(pid: nat, end: End)
      requires Valid()
      modifies this
      ensures Valid() && received == old(received)
      ensures match end
              case Done(Return(_)) => procs == old(procs) - {pid} && faults == old(faults)
              case Done(Continue(p)) => procs == old(procs)[pid := p] && faults == old(faults)
              case Threw(fault) => procs == old(procs) - {pid} && faults == old(faults) + {fault}
    {
      match end
      case Done(Return(_)) => procs := procs - {pid};
      case Done(Continue(p)) => procs := procs[pid := p];
      case Threw(fault) =>
        procs := procs - {pid};
        faults := faults + {fault};
    }

    /** Whatever the schedule, the objects end where the protocol's run ends, with its invariant. */
    method Serve(events: seq<Event>)
      requires Valid() && ValidConfig(cfg) && WorldInv(cfg, Abstraction())
      modifies this, context
      ensures Valid() && Abstraction() == Run(cfg, old(Abstraction()), events)
      ensures WorldInv(cfg, Abstraction())
    {
      hide Step, WorldInv;
      ghost var before := Abstraction();
      RunKeeps(cfg, before, events);
      for i := 0 to |events|
        invariant Valid()
        invariant Run(cfg, Abstraction(), events[i..]) == Run(cfg, before, events)
      {
        assert events[i..][0] == events[i] && events[i..][1..] == events[i + 1..];
        Handle(events[i]);
      }
    }
  }
}
