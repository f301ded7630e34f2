TestResult.DisplayName,TestResult.Outcome,TestResult.Duration,TestResult.ResourceCount,RandomSeed
Playback.Drain (correctness),Passed,00:00:00.2836604,281654,2
Playback.Drain (well-formedness),Passed,00:00:00.2033966,81625,2
