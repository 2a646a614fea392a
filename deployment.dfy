/** The readiness rule of Day2/is_ready_for_deployment.py. The messages it
    prints and the three numbers it reads from the keyboard are not modelled. */
module Deployment {

  const CpuLimit: int := 70
  const RamLimit: int := 75
  const DiskLimit: int := 80

  /** `is_ready_for_deployment`: every usage strictly below its limit. */
  function IsReadyForDeployment(cpu: int, ram: int, disk: int): (ready: bool)
    ensures ready ==> cpu < CpuLimit && ram < RamLimit && disk < DiskLimit
  {
    if cpu < CpuLimit && ram < RamLimit && disk < DiskLimit then true else false
  }

  /** Every usage below its limit is enough. */
  lemma ReadyBelowLimits(cpu: int, ram: int, disk: int)
    requires cpu < CpuLimit && ram < RamLimit && disk < DiskLimit
    ensures IsReadyForDeployment(cpu, ram, disk)
  {
  }

  /** Any one usage at or above its limit blocks the deployment, whatever the
      other two are; in particular every limit is exclusive. */
  lemma AnyLimitBlocks(cpu: int, ram: int, disk: int)
    requires cpu >= CpuLimit || ram >= RamLimit || disk >= DiskLimit
    ensures !IsReadyForDeployment(cpu, ram, disk)
  {
  }

  /** Exactly at the limits nothing is ready; one below each limit is. */
  lemma ReadyBoundary()
    ensures !IsReadyForDeployment(70, 0, 0) && !IsReadyForDeployment(0, 75, 0) && !IsReadyForDeployment(0, 0, 80)
    ensures IsReadyForDeployment(69, 74, 79)
  {
  }

  /** Lowering any usage keeps a ready server ready. */
  lemma ReadyMonotone(cpu: int, ram: int, disk: int, cpu': int, ram': int, disk': int)
    requires cpu' <= cpu && ram' <= ram && disk' <= disk
    requires IsReadyForDeployment(cpu, ram, disk)
    ensures IsReadyForDeployment(cpu', ram', disk')
  {
  }
}
