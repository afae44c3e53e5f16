/**
 * The records of the EPaxos replica. Dependency lists are sets: the source keeps them sorted and merges them as sets.
 */
module EpaxosTypes {

  datatype CmdOp = Nop | R | W

  datatype Command = Command(op: CmdOp, key: string, value: seq<bv8>)

  datatype BallotNumber = BallotNumber(epoch: nat, b: nat, r: nat)

  datatype InstanceId = InstanceId(rid: nat, index: nat)

  datatype InstanceState = Init | PreAccepted | Accepted | Committed

  datatype Instance = Instance(i: InstanceId, ballot: BallotNumber, maxSeen: BallotNumber, state: InstanceState,
                               y: Command, seqno: nat, deps: set<InstanceId>)
}
