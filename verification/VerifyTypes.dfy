/**
 The records and constants shared by the verification agent and the manager
 service: status codes, per-host verification records and per-bundle results.
 */
module VerifyTypes {

  datatype Option<+T> = None | Some(value: T)

  /** The 32-bit integers that records, rows and parcels carry. */
  type Int32 = x: int | -0x8000_0000 <= x < 0x8000_0000

  /** An unscoped enumeration in the source: any code read back from a row or a
      parcel is cast into it unchecked, so every 32-bit code is a value. */
  type InnerVerifyStatus = Int32

  const UNKNOWN: InnerVerifyStatus := 0
  const STATE_SUCCESS: InnerVerifyStatus := 1
  const STATE_FAIL: InnerVerifyStatus := 2
  const FAILURE_REDIRECT: InnerVerifyStatus := 3
  const FAILURE_CLIENT_ERROR: InnerVerifyStatus := 4
  const FAILURE_REJECTED_BY_SERVER: InnerVerifyStatus := 5
  const FAILURE_HTTP_UNKNOWN: InnerVerifyStatus := 6
  const FORBIDDEN_FOREVER: InnerVerifyStatus := 9
  const PRE_INSTALLED: InnerVerifyStatus := 10

  datatype SkillUri = SkillUri(
    scheme: string, host: string, path: string, pathStartWith: string, pathRegex: string)

  const PRIORITY_UNSET: Int32 := -1000
  const PRIORITY_MIN: Int32 := -100
  const PRIORITY_MAX: Int32 := 100

  datatype VerifyStatus = VerifyStatus(
    status: InnerVerifyStatus,
    retryCnt: Int32,
    verifyTime: string,
    priority: Int32)

  type HostVerifyStatusMap = map<string, VerifyStatus>

  datatype VerifyResultInfo = VerifyResultInfo(
    appIdentifier: string,
    hostVerifyStatusMap: HostVerifyStatusMap)

  /** The statuses that let an ability open a link of the host. */
  predicate Verified(status: InnerVerifyStatus) {
    status == STATE_SUCCESS || status == PRE_INSTALLED
  }

  /** A priority an asset file may legally give an application. */
  predicate LegalPriority(priority: int) {
    priority == PRIORITY_UNSET || PRIORITY_MIN <= priority <= PRIORITY_MAX
  }

  /** Every verified host of the result carries a legal priority. */
  ghost predicate LegalHosts(hosts: HostVerifyStatusMap) {
    forall h :: h in hosts && Verified(hosts[h].status) ==> LegalPriority(hosts[h].priority)
  }
}
