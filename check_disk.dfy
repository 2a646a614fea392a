/** The CPU threshold of Day2/check_disk.py and the loop that checks it
    against a table of expected answers. The disk-space report in the same
    file reads the file system and is not modelled. */
module CheckDisk {

  const CpuLimit: int := 80

  /** `is_server_healthy`: unhealthy only above the limit. */
  function IsServerHealthy(cpuUsage: int): (healthy: bool)
    ensures healthy <==> cpuUsage <= CpuLimit
  {
    if cpuUsage > CpuLimit then false else true
  }

  /** The limit itself is still healthy; one more is not. */
  lemma HealthyBoundary()
    ensures IsServerHealthy(80) && !IsServerHealthy(81)
  {
  }

  /** Lower usage never makes a healthy server unhealthy. */
  lemma HealthyMonotone(a: int, b: int)
    requires a <= b && IsServerHealthy(b)
    ensures IsServerHealthy(a)
  {
  }

  const TestData: seq<int> := [45, 82, 67, 91]
  const ExpectedResults: seq<bool> := [true, false, true, false]

  /** The test loop: walks the inputs with a counter that indexes the expected
      answers, printing "OK" for each agreement and "NO" otherwise. */
  method CheckVectors(testData: seq<int>, expected: seq<bool>) returns (printed: seq<string>)
    requires |testData| <= |expected|
    ensures |printed| == |testData|
    ensures forall k :: 0 <= k < |testData| ==>
      printed[k] == if IsServerHealthy(testData[k]) == expected[k] then "OK" else "NO"
  {
    printed := [];
    var i := 0;
    for k := 0 to |testData|
      invariant i == k && i <= |expected|
      invariant |printed| == k
      invariant forall j :: 0 <= j < k ==>
        printed[j] == if IsServerHealthy(testData[j]) == expected[j] then "OK" else "NO"
    {
      var data := testData[k];
      if IsServerHealthy(data) == expected[i] {
        printed := printed + ["OK"];
      } else {
        printed := printed + ["NO"];
      }
      i := i + 1;
    }
  }

  /** The expected answers in the file are right, so every line printed is
      "OK". */
  method CheckScript() returns (printed: seq<string>)
    ensures printed == ["OK", "OK", "OK", "OK"]
  {
    printed := CheckVectors(TestData, ExpectedResults);
  }
}
