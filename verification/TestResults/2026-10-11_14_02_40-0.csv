TestResult.DisplayName,TestResult.Outcome,TestResult.Duration,TestResult.ResourceCount,RandomSeed
ShapeBound.GapAgainst (correctness),Passed,00:00:00.3251446,643266,4
ShapeBound.GapOrthogonal (correctness),Passed,00:00:00.1423029,361296,4
ShapeBound.DotOfGap (correctness),Passed,00:00:00.1301261,107875,4
