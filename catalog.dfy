/** The widget's static tables (static/app.js): the canned answers, the
    question lists shown for each category, the category and sub-category
    labels and the category images. */
module Catalog {

  import opened Wrappers
  import opened Text

  /** The category buttons of the main menu, in order: (data-category, label). */
  const CategoryTabs: seq<(string, string)> := [
    ("accreditation", "Accreditation Process & Status"),
    ("framework", "MQA Framework"),
    ("qualifications", "Qualification Standards"),
    ("recognition", "Recognition of Qualification"),
    ("equivalency", "Equivalency of Qualification"),
    ("apel", "APEL"),
    ("faq", "Frequently Asked Questions")
  ]

  /** The APEL sub-category buttons, in order: (data-category, label). */
  const SubCategoryTabs: seq<(string, string)> := [
    ("apel-a", "APEL.A - Access to Higher Education"),
    ("apel-c", "APEL.C - Credit Transfer"),
    ("apel-q", "APEL.Q - Qualifications"),
    ("apel-m", "APEL.M - Micro-credentials")
  ]

  /** `apelSubCategories`: sub-category id to label. */
  const ApelSubCategories: map<string, string> := map[
    "apel-a" := "APEL.A - Access to Higher Education",
    "apel-c" := "APEL.C - Credit Transfer",
    "apel-q" := "APEL.Q - Qualifications",
    "apel-m" := "APEL.M - Micro-credentials"
  ]

  /** `categoryImages`: category id to image file. */
  const CategoryImages: map<string, string> := map[
    "accreditation" := "accreditation.png",
    "framework" := "framework.png",
    "qualifications" := "qualifications.png",
    "recognition" := "recognition.png",
    "equivalency" := "equivalency.png",
    "apel" := "apel.png",
    "faq" := "faq.png",
    "default" := "mqa-logo.png"
  ]

  /** The image shown when no category image applies. */
  const DefaultImage := "mqa-logo.png"

  /** The display names `getCategoryName` knows. */
  const CategoryNames: map<string, string> := map[
    "accreditation" := "Accreditation Process & Status",
    "framework" := "MQA Framework",
    "qualifications" := "Qualification Standards",
    "recognition" := "Recognition of Qualification",
    "equivalency" := "Equivalency of Qualification",
    "apel" := "APEL",
    "faq" := "Frequently Asked Questions",
    "apel-a" := "APEL.A - Access to Higher Education",
    "apel-c" := "APEL.C - Credit Transfer",
    "apel-q" := "APEL.Q - Qualifications",
    "apel-m" := "APEL.M - Micro-credentials"
  ]

  /** The name used for a category nobody knows. */
  const UnknownTopic := "this topic"

  /** `predefinedAnswers`: category id, then exact question text, to answer. */
  const PredefinedAnswers: map<string, map<string, string>> := map[
    "accreditation" := map[
      "What is the accreditation process timeline?" :=
        "The accreditation process typically takes 6-9 months from application submission to final decision. This includes document review, site visits, and committee evaluation.",
      "What documents are required for accreditation?" :=
        "Required documents include: institutional profile, program specifications, quality assurance documents, faculty qualifications, facility details, and financial sustainability reports.",
      "How to check accreditation status?" :=
        "You can check accreditation status through the MQA portal at portal.mqa.gov.my or contact our accreditation division directly at accreditation@mqa.gov.my",
      "What are the accreditation fees?" :=
        "Accreditation fees vary based on program level and institution type. Basic fees start from RM 5,000 for certificate programs to RM 15,000 for doctoral programs.",
      "How to appeal an accreditation decision?" :=
        "Appeals must be submitted within 30 days of decision notification. Submit a formal appeal letter with supporting documents to appeals@mqa.gov.my"
    ],
    "framework" := map[
      "What is the Malaysian Qualifications Framework?" :=
        "The MQF is a unified national qualifications framework that organizes qualifications according to a set of criteria based on learning outcomes.",
      "How does the MQF work?" :=
        "The MQF functions as a reference point for qualifications, ensuring quality and facilitating credit transfer and recognition across education sectors.",
      "What are the MQF levels?" :=
        "The MQF has 8 levels from Level 1 (Certificate) to Level 8 (Doctoral), with each level specifying learning outcomes and credit requirements.",
      "Where can I find the latest MQA policies?" :=
        "Latest policies are available on the official MQA website at www.mqa.gov.my/policies or through the MQA digital library.",
      "How often are framework standards updated?" :=
        "Framework standards are reviewed every 3-5 years to ensure relevance with industry needs and international best practices."
    ],
    "qualifications" := map[
      "What are the standards for new programs?" :=
        "New programs must meet MQF level descriptors, have adequate resources, qualified faculty, and align with national education goals.",
      "How to develop a new qualification?" :=
        "Follow the MQA program development guidelines, conduct needs analysis, design curriculum based on learning outcomes, and submit proposal through the online system.",
      "What are the program standards requirements?" :=
        "Requirements include: clear learning outcomes, appropriate assessment methods, qualified teaching staff, adequate facilities, and quality assurance mechanisms.",
      "How to modify an existing qualification?" :=
        "Submit modification proposal through MQA portal, providing justification and impact analysis. Major changes may require re-accreditation.",
      "Where can I find the qualification standards handbook?" :=
        "The handbook is available for download at www.mqa.gov.my/standards-handbook"
    ],
    "recognition" := map[
      "How to get a qualification recognized?" :=
        "Submit application through MQA recognition portal with complete academic transcripts, certificate copies, and program details.",
      "What is the recognition process?" :=
        "Process includes document verification, qualification assessment against MQF, committee review, and issuance of recognition certificate.",
      "Which qualifications need recognition?" :=
        "All foreign qualifications and local qualifications from non-accredited institutions require MQA recognition for official purposes.",
      "How long does recognition take?" :=
        "Standard processing time is 2-3 months for complete applications. Complex cases may take longer.",
      "What documents are needed for recognition?" :=
        "Required: academic transcripts, certificates, program specifications, institution details, and identification documents."
    ],
    "equivalency" := map[
      "What is qualification equivalency?" :=
        "Equivalency establishes the comparable MQF level for qualifications obtained from different education systems.",
      "How to apply for equivalency?" :=
        "Apply through MQA equivalency portal with complete academic documents and pay the assessment fee.",
      "Which countries' qualifications are recognized?" :=
        "MQA recognizes qualifications from countries with established quality assurance systems and mutual recognition agreements.",
      "What is the equivalency assessment process?" :=
        "Assessment compares learning outcomes, program duration, content, and assessment methods against MQF standards.",
      "How long does equivalency assessment take?" :=
        "Standard assessment takes 4-6 weeks. Additional verification may extend this period."
    ],
    "apel" := map[
      "What is APEL?" :=
        "APEL (Accreditation of Prior Experiential Learning) recognizes skills and knowledge gained through work and life experiences.",
      "Who can apply for APEL?" :=
        "Malaysian citizens aged 21+ with relevant work experience can apply for APEL assessment for entry to programs or credit transfer.",
      "How does APEL work?" :=
        "Candidates document their learning experiences, submit portfolio for assessment, and may undergo interviews or practical tests.",
      "What are the APEL requirements?" :=
        "Minimum 3 years relevant experience, portfolio evidence, and meeting specific program entry requirements.",
      "How to apply for APEL assessment?" :=
        "Register through APEL online system, prepare learning portfolio, and submit for assessment with required fees."
    ],
    "apel-a" := map[
      "What is APEL.A?" :=
        "APEL.A (Access) allows individuals with work experience to enter higher education programs without formal academic qualifications.",
      "Who is eligible for APEL.A?" :=
        "Malaysian citizens aged 21+ with minimum 3 years relevant work experience in the field of study.",
      "How to apply for APEL.A?" :=
        "Apply through the APEL online portal, submit portfolio of experiential learning, and attend assessment interview.",
      "What documents are needed for APEL.A?" :=
        "Required: Identification documents, work experience evidence, portfolio, and application form.",
      "What is the APEL.A assessment process?" :=
        "Assessment includes portfolio review, interview, and sometimes practical tests to verify learning outcomes."
    ],
    "apel-c" := map[
      "What is APEL.C?" :=
        "APEL.C (Credit Transfer) allows recognition of prior learning for credit exemption in academic programs.",
      "How many credits can I get through APEL.C?" :=
        "Maximum 50% of total program credits can be obtained through APEL.C, subject to institutional policies.",
      "What types of learning qualify for APEL.C?" :=
        "Work experience, professional training, online courses, and other verifiable learning experiences.",
      "How to apply for APEL.C credit transfer?" :=
        "Submit application through participating institutions with evidence of prior learning.",
      "What is the cost of APEL.C assessment?" :=
        "Assessment fees vary by institution, typically ranging from RM 200-500 per credit hour."
    ],
    "apel-q" := map[
      "What is APEL.Q?" :=
        "APEL.Q (Qualifications) provides formal recognition of experiential learning leading to full qualifications.",
      "What qualifications are available through APEL.Q?" :=
        "Certificate, Diploma, and Advanced Diploma levels in various fields.",
      "How long does APEL.Q assessment take?" :=
        "Complete assessment process typically takes 3-6 months depending on qualification level.",
      "What are the APEL.Q requirements?" :=
        "Minimum 5 years relevant experience, comprehensive portfolio, and successful assessment.",
      "Are APEL.Q qualifications recognized?" :=
        "Yes, APEL.Q qualifications are recognized under the Malaysian Qualifications Framework."
    ],
    "apel-m" := map[
      "What is APEL.M?" :=
        "APEL.M (Micro-credentials) recognizes specific skills and competencies through short, focused learning programs.",
      "What types of micro-credentials are available?" :=
        "Digital skills, technical competencies, professional development, and industry-specific skills.",
      "How long do APEL.M programs take?" :=
        "Typically 2-6 months depending on the complexity of skills being assessed.",
      "Are APEL.M credentials stackable?" :=
        "Yes, multiple micro-credentials can be combined toward larger qualifications.",
      "How to register for APEL.M?" :=
        "Register through approved training providers or the MQA APEL portal."
    ],
    "faq" := map[
      "How to contact MQA directly?" :=
        "Call 03-7968 7002, email enquiry@mqa.gov.my, or visit MQA headquarters at Menara MQA, Cyberjaya.",
      "Where is MQA headquarters located?" :=
        "MQA Headquarters: Malaysian Qualifications Agency, Menara MQA, Lingkaran Cyber Point Timur, 63000 Cyberjaya, Selangor.",
      "What are MQA's operating hours?" :=
        "Monday-Friday: 8:00 AM - 5:00 PM. Closed on weekends and public holidays.",
      "How to file a complaint?" :=
        "Submit complaints through MQA portal, email complaint@mqa.gov.my, or call the complaints hotline at 03-7968 7029.",
      "Where can I download official forms?" :=
        "All official forms available at www.mqa.gov.my/forms or through the MQA digital services portal."
    ]
  ]

  /** The question buttons of each top-level category as the source lists them. */
  const CategoryQuestionsAsWritten: map<string, seq<string>> := map[
    "accreditation" := [
      "What is the accreditation process timeline?",
      "What documents are required for accreditation?",
      "How to check accreditation status?",
      "What are the accreditation fees?",
      "How to appeal an accreditation decision?"
    ],
    "framework" := [
      "What is the Malaysian Qualifications Framework (MQF)?",
      "How does the MQF work?",
      "What are the MQF levels?",
      "Where can I find the latest MQA policies?",
      "How often are framework standards updated?"
    ],
    "qualifications" := [
      "What are the standards for new programs?",
      "How to develop a new qualification?",
      "What are the program standards requirements?",
      "How to modify an existing qualification?",
      "Where can I find the qualification standards handbook?"
    ],
    "recognition" := [
      "How to get a qualification recognized?",
      "What is the recognition process?",
      "Which qualifications need recognition?",
      "How long does recognition take?",
      "What documents are needed for recognition?"
    ],
    "equivalency" := [
      "What is qualification equivalency?",
      "How to apply for equivalency?",
      "Which countries' qualifications are recognized?",
      "What is the equivalency assessment process?",
      "How long does equivalency assessment take?"
    ],
    "apel" := [
      "What is APEL?",
      "Who can apply for APEL?",
      "How does APEL work?",
      "What are the APEL requirements?",
      "How to apply for APEL assessment?"
    ],
    "faq" := [
      "How to contact MQA directly?",
      "Where is MQA headquarters located?",
      "What are MQA's operating hours?",
      "How to file a complaint?",
      "Where can I download official forms?"
    ]
  ]

  /** The question buttons of each APEL sub-category. */
  const SubCategoryQuestions: map<string, seq<string>> := map[
    "apel-a" := [
      "What is APEL.A?",
      "Who is eligible for APEL.A?",
      "How to apply for APEL.A?",
      "What documents are needed for APEL.A?",
      "What is the APEL.A assessment process?"
    ],
    "apel-c" := [
      "What is APEL.C?",
      "How many credits can I get through APEL.C?",
      "What types of learning qualify for APEL.C?",
      "How to apply for APEL.C credit transfer?",
      "What is the cost of APEL.C assessment?"
    ],
    "apel-q" := [
      "What is APEL.Q?",
      "What qualifications are available through APEL.Q?",
      "How long does APEL.Q assessment take?",
      "What are the APEL.Q requirements?",
      "Are APEL.Q qualifications recognized?"
    ],
    "apel-m" := [
      "What is APEL.M?",
      "What types of micro-credentials are available?",
      "How long do APEL.M programs take?",
      "Are APEL.M credentials stackable?",
      "How to register for APEL.M?"
    ]
  ]

  /** The label of the button that asks for free text in a question list. */
  const CustomQuestionLabel := "Ask a custom question"

  /** The framework question as the framework list words it (static/app.js:397). */
  const FrameworkListedQuestion := "What is the Malaysian Qualifications Framework (MQF)?"

  /** The same question as the answer table keys it (static/app.js:48). */
  const FrameworkAnswerKey := "What is the Malaysian Qualifications Framework?"

  /** The question lists with the framework question worded as its answer key,
      so that every listed question has a canned answer. */
  const CategoryQuestions: map<string, seq<string>> :=
    CategoryQuestionsAsWritten["framework" := [FrameworkAnswerKey] + CategoryQuestionsAsWritten["framework"][1..]]

  // ---------------------------------------------------------------------------
  // Lookups

  /** `getCategoryName(category)`: the known display name, or "this topic". */
  function CategoryName(category: Option<string>): (r: string)
    ensures category.Some? && category.value in CategoryNames ==> r == CategoryNames[category.value]
    ensures !(category.Some? && category.value in CategoryNames) ==> r == UnknownTopic
    ensures r == UnknownTopic <==> !(category.Some? && category.value in CategoryNames)
  {
    if category.Some? && category.value in CategoryNames && CategoryNames[category.value] != "" then
      CategoryNames[category.value]
    else
      UnknownTopic
  }

  /** The image `updateProfileImage(category)` selects: the category's own
      image when the table has one, the MQA logo otherwise. */
  function ImageFor(category: Option<string>): (r: string)
    ensures category.Some? && category.value in CategoryImages ==> r == CategoryImages[category.value]
    ensures !(category.Some? && category.value in CategoryImages) ==> r == DefaultImage
  {
    if category.Some? && category.value != "" && category.value in CategoryImages
       && CategoryImages[category.value] != "" then
      CategoryImages[category.value]
    else
      DefaultImage
  }

  /** `predefinedAnswers[category]?.[question]`: an exact, case-sensitive
      lookup that yields an answer only when both keys are present. */
  function Lookup(category: Option<string>, question: string): (r: Option<string>)
    ensures r.Some? <==> category.Some? && category.value in PredefinedAnswers
                         && question in PredefinedAnswers[category.value]
    ensures r.Some? ==> r.value == PredefinedAnswers[category.value][question]
  {
    if category.Some? && category.value in PredefinedAnswers
       && question in PredefinedAnswers[category.value] then
      Some(PredefinedAnswers[category.value][question])
    else
      None
  }

  /** The questions `showCategoryQuestions` lists for the selected category
      (`questions[this.selectedCategory] || []`). */
  function QuestionsFor(category: Option<string>): (r: seq<string>)
    ensures category.Some? && category.value in CategoryQuestionsAsWritten ==>
              r == CategoryQuestionsAsWritten[category.value]
    ensures !(category.Some? && category.value in CategoryQuestionsAsWritten) ==> r == []
  {
    if category.Some? && category.value in CategoryQuestionsAsWritten then
      CategoryQuestionsAsWritten[category.value]
    else
      []
  }

  /** The questions `showSubCategoryQuestions(subCategory)` lists. */
  function SubQuestionsFor(subCategory: string): (r: seq<string>)
    ensures subCategory in SubCategoryQuestions ==> r == SubCategoryQuestions[subCategory]
    ensures subCategory !in SubCategoryQuestions ==> r == []
  {
    if subCategory in SubCategoryQuestions then SubCategoryQuestions[subCategory] else []
  }

  // ---------------------------------------------------------------------------
  // Facts about the tables

  // Per-category facts: each list is checked against its own answer table,
  // which keeps every proof small.

  lemma AccreditationListAnswered(i: nat)
    requires i < |CategoryQuestionsAsWritten["accreditation"]|
    ensures CategoryQuestionsAsWritten["accreditation"][i] in PredefinedAnswers["accreditation"]
  {
  }

  lemma FrameworkListAnswered(i: nat)
    requires 1 <= i && i < |CategoryQuestionsAsWritten["framework"]|
    ensures CategoryQuestionsAsWritten["framework"][i] in PredefinedAnswers["framework"]
  {
  }

  lemma QualificationsListAnswered(i: nat)
    requires i < |CategoryQuestionsAsWritten["qualifications"]|
    ensures CategoryQuestionsAsWritten["qualifications"][i] in PredefinedAnswers["qualifications"]
  {
  }

  lemma RecognitionListAnswered(i: nat)
    requires i < |CategoryQuestionsAsWritten["recognition"]|
    ensures CategoryQuestionsAsWritten["recognition"][i] in PredefinedAnswers["recognition"]
  {
  }

  lemma EquivalencyListAnswered(i: nat)
    requires i < |CategoryQuestionsAsWritten["equivalency"]|
    ensures CategoryQuestionsAsWritten["equivalency"][i] in PredefinedAnswers["equivalency"]
  {
  }

  lemma ApelListAnswered(i: nat)
    requires i < |CategoryQuestionsAsWritten["apel"]|
    ensures CategoryQuestionsAsWritten["apel"][i] in PredefinedAnswers["apel"]
  {
  }

  lemma FaqListAnswered(i: nat)
    requires i < |CategoryQuestionsAsWritten["faq"]|
    ensures CategoryQuestionsAsWritten["faq"][i] in PredefinedAnswers["faq"]
  {
  }

  lemma ApelAListAnswered(i: nat)
    requires i < |SubCategoryQuestions["apel-a"]|
    ensures SubCategoryQuestions["apel-a"][i] in PredefinedAnswers["apel-a"]
  {
  }

  lemma ApelCListAnswered(i: nat)
    requires i < |SubCategoryQuestions["apel-c"]|
    ensures SubCategoryQuestions["apel-c"][i] in PredefinedAnswers["apel-c"]
  {
  }

  lemma ApelQListAnswered(i: nat)
    requires i < |SubCategoryQuestions["apel-q"]|
    ensures SubCategoryQuestions["apel-q"][i] in PredefinedAnswers["apel-q"]
  {
  }

  lemma ApelMListAnswered(i: nat)
    requires i < |SubCategoryQuestions["apel-m"]|
    ensures SubCategoryQuestions["apel-m"][i] in PredefinedAnswers["apel-m"]
  {
  }

  /** Apart from the framework list's first question, every question the
      source lists for a top-level category has its canned answer. */
  lemma ListedAsWrittenAnsweredExceptFramework(c: string, i: nat)
    requires c in CategoryQuestionsAsWritten && i < |CategoryQuestionsAsWritten[c]|
    requires !(c == "framework" && i == 0)
    ensures Lookup(Some(c), CategoryQuestionsAsWritten[c][i]).Some?
  {
    if c == "accreditation" {
      AccreditationListAnswered(i);
    } else if c == "framework" {
      FrameworkListAnswered(i);
    } else if c == "qualifications" {
      QualificationsListAnswered(i);
    } else if c == "recognition" {
      RecognitionListAnswered(i);
    } else if c == "equivalency" {
      EquivalencyListAnswered(i);
    } else if c == "apel" {
      ApelListAnswered(i);
    } else {
      FaqListAnswered(i);
    }
  }

  /** The one listed question without a canned answer: the framework list
      words it with "(MQF)", the answer table without. */
  lemma FrameworkListedQuestionUnanswered()
    ensures CategoryQuestionsAsWritten["framework"][0] == FrameworkListedQuestion
    ensures Lookup(Some("framework"), FrameworkListedQuestion).None?
    ensures Lookup(Some("framework"), FrameworkAnswerKey).Some?
  {
  }

  /** The framework button, the second, lists the "(MQF)" question first. */
  lemma FrameworkMenuLeadsToMiss()
    ensures CategoryTabs[1].0 == "framework" && CategoryTabs[1].0 != "apel"
    ensures QuestionsFor(Some("framework")) != []
    ensures QuestionsFor(Some("framework"))[0] == FrameworkListedQuestion != CustomQuestionLabel
  {
  }

  /** With the corrected framework list, every listed question of a top-level
      category has a canned answer. */
  lemma EveryListedQuestionAnswered(c: string, i: nat)
    requires c in CategoryQuestions && i < |CategoryQuestions[c]|
    ensures Lookup(Some(c), CategoryQuestions[c][i]).Some?
  {
    if c == "framework" && i == 0 {
      assert CategoryQuestions[c][i] == FrameworkAnswerKey;
      FrameworkListedQuestionUnanswered();
    } else if c == "framework" {
      var listed := CategoryQuestionsAsWritten[c];
      assert CategoryQuestions[c] == [FrameworkAnswerKey] + listed[1..];
      assert CategoryQuestions[c][i] == listed[i];
      ListedAsWrittenAnsweredExceptFramework(c, i);
    } else {
      assert CategoryQuestions[c] == CategoryQuestionsAsWritten[c];
      ListedAsWrittenAnsweredExceptFramework(c, i);
    }
  }

  /** Every listed question of an APEL sub-category has its answer. */
  lemma EverySubCategoryQuestionAnswered(c: string, i: nat)
    requires c in SubCategoryQuestions && i < |SubCategoryQuestions[c]|
    ensures Lookup(Some(c), SubCategoryQuestions[c][i]).Some?
  {
    if c == "apel-a" {
      ApelAListAnswered(i);
    } else if c == "apel-c" {
      ApelCListAnswered(i);
    } else if c == "apel-q" {
      ApelQListAnswered(i);
    } else {
      ApelMListAnswered(i);
    }
  }

  /** A category button's label is the category's display name, the button
      leads to a question list, and its id is not an APEL sub-category id. */
  lemma CategoryTabsConsistent(i: nat)
    requires i < |CategoryTabs|
    ensures CategoryName(Some(CategoryTabs[i].0)) == CategoryTabs[i].1
    ensures CategoryTabs[i].0 in CategoryQuestionsAsWritten && CategoryTabs[i].0 in CategoryImages
    ensures !StartsWith(CategoryTabs[i].0, "apel-")
  {
    var id := CategoryTabs[i].0;
    assert |id| < 5 || (id[4] != '-' && id[..5][4] == id[4]);
  }

  /** A sub-category button's id and label agree with `apelSubCategories` and
      with `getCategoryName`; the id starts with "apel-"; and, having no entry
      of its own in `categoryImages`, it selects the logo. */
  lemma SubCategoryTabsConsistent(i: nat)
    requires i < |SubCategoryTabs|
    ensures SubCategoryTabs[i].0 in ApelSubCategories
    ensures ApelSubCategories[SubCategoryTabs[i].0] == SubCategoryTabs[i].1
    ensures CategoryName(Some(SubCategoryTabs[i].0)) == SubCategoryTabs[i].1
    ensures StartsWith(SubCategoryTabs[i].0, "apel-")
    ensures SubCategoryTabs[i].0 in SubCategoryQuestions
    ensures ImageFor(Some(SubCategoryTabs[i].0)) == DefaultImage
  {
  }

  /** The sub-category buttons are exactly the entries of `apelSubCategories`. */
  lemma SubCategoryTabsCoverTable(id: string)
    requires id in ApelSubCategories
    ensures exists i :: 0 <= i < |SubCategoryTabs| && SubCategoryTabs[i].0 == id
  {
    if id == "apel-a" { assert SubCategoryTabs[0].0 == id; }
    else if id == "apel-c" { assert SubCategoryTabs[1].0 == id; }
    else if id == "apel-q" { assert SubCategoryTabs[2].0 == id; }
    else { assert SubCategoryTabs[3].0 == id; }
  }
}
